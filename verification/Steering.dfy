/** The reported speed and heading revert to their planned values despite bounded noise. */
module Steering {
  import opened Rounding
  import opened Geo
  import opened Ship
  import Voyages

  /** 0.8^n, what is left of an initial error after n ticks. */
  ghost function Decay(n: nat): (d: real)
    ensures 0.0 < d <= 1.0
  {
    if n == 0 then 1.0 else 0.8 * Decay(n - 1)
  }

  ghost predicate Bounded(noise: seq<real>, bound: real) {
    forall i :: 0 <= i < |noise| ==> Abs(noise[i]) <= bound
  }

  ghost function SpeedAfter(speed: real, planned: real, noise: seq<real>): real {
    if noise == [] then speed
    else RevertedSpeed(SpeedAfter(speed, planned, noise[..|noise| - 1]), planned, noise[|noise| - 1])
  }

  ghost function HeadingAfter(heading: real, planned: real, noise: seq<real>): real {
    if noise == [] then heading
    else RevertedHeading(HeadingAfter(heading, planned, noise[..|noise| - 1]), planned, noise[|noise| - 1])
  }

  /** An error bounded by d * first + 5 * (1 - d) * bound shrinks into the same form with 0.8 * d. */
  ghost function Envelope(first: real, bound: real, d: real): real {
    d * first + 5.0 * (bound - d * bound)
  }

  lemma EnvelopeStep(first: real, bound: real, d: real)
    ensures 0.8 * Envelope(first, bound, d) + bound == Envelope(first, bound, 0.8 * d)
  {
    assert 0.8 * (d * first) == (0.8 * d) * first;
    assert 0.8 * (d * bound) == (0.8 * d) * bound;
  }

  lemma EnvelopeBound(first: real, bound: real, d: real)
    requires 0.0 <= bound && 0.0 <= d
    ensures Envelope(first, bound, d) <= d * first + 5.0 * bound
  {
    assert 0.0 <= d * bound;
  }

  lemma {:induction false} SpeedEnvelope(speed: real, planned: real, noise: seq<real>, bound: real)
    requires Bounded(noise, bound)
    ensures Abs(SpeedAfter(speed, planned, noise) - planned) <= Envelope(Abs(speed - planned), bound, Decay(|noise|))
  {
    if noise != [] {
      var last := |noise| - 1;
      SpeedEnvelope(speed, planned, noise[..last], bound);
      EnvelopeStep(Abs(speed - planned), bound, Decay(last));
      var before := SpeedAfter(speed, planned, noise[..last]) - planned;
      assert SpeedAfter(speed, planned, noise) - planned == 0.8 * before + noise[last];
    }
  }

  /** An error after n ticks is at most 0.8^n of the first error, plus 5N. */
  ghost predicate Reverted(error: real, first: real, n: nat, bound: real) {
    Abs(error) <= Decay(n) * Abs(first) + 5.0 * bound
  }

  /** After n ticks with noise at most N the speed error is at most 0.8^n of the first error, plus 5N. */
  lemma SpeedReverts(speed: real, planned: real, noise: seq<real>, bound: real)
    requires 0.0 <= bound && Bounded(noise, bound)
    ensures Reverted(SpeedAfter(speed, planned, noise) - planned, speed - planned, |noise|, bound)
  {
    SpeedEnvelope(speed, planned, noise, bound);
    EnvelopeBound(Abs(speed - planned), bound, Decay(|noise|));
  }

  /** One correction leaves 0.8 of the wrapped error, less the noise, unless that leaves the half circle. */
  lemma HeadingStep(heading: real, planned: real, noise: real)
    requires Abs(0.8 * AngularDiff(heading, planned) - noise) < 180.0
    ensures AngularDiff(RevertedHeading(heading, planned, noise), planned)
            == 0.8 * AngularDiff(heading, planned) - noise
  {
    var error := AngularDiff(heading, planned);
    var turns := AngularDiffTurns(heading, planned);
    var raw := heading + 0.2 * error + noise;
    var wraps := (raw / 360.0).Floor;
    assert RevertedHeading(heading, planned, noise) == raw - 360.0 * wraps as real;
    AngularDiffUnique(RevertedHeading(heading, planned, noise), planned, 0.8 * error - noise, turns + wraps);
  }

  lemma LoseAtMost(d: real, bound: real)
    requires 0.0 <= bound < 36.0 && 0.0 < d <= 1.0
    ensures bound - d * bound <= 36.0 - 36.0 * d
  {
    ScaleRight(bound, 36.0, 1.0 - d);
    ScaleApart(bound, d, 1.0);
  }

  lemma EnvelopeAtMost(first: real, bound: real, d: real)
    requires 0.0 <= first <= 180.0 && 0.0 <= bound < 36.0 && 0.0 < d <= 1.0
    ensures Envelope(first, bound, d) <= 180.0
  {
    ScaleRight(first, 180.0, d);
    LoseAtMost(d, bound);
  }

  lemma EnvelopeBelowHalfTurn(first: real, bound: real, d: real)
    requires 0.0 <= first <= 180.0 && 0.0 <= bound < 36.0 && 0.0 < d <= 1.0
    ensures 0.8 * Envelope(first, bound, d) + bound < 180.0
  {
    EnvelopeAtMost(first, bound, d);
  }

  lemma {:induction false} HeadingEnvelope(heading: real, planned: real, noise: seq<real>, bound: real)
    requires Bounded(noise, bound) && 0.0 <= bound < 36.0
    ensures Abs(AngularDiff(HeadingAfter(heading, planned, noise), planned))
            <= Envelope(Abs(AngularDiff(heading, planned)), bound, Decay(|noise|))
  {
    if noise != [] {
      var last := |noise| - 1;
      var first := Abs(AngularDiff(heading, planned));
      HeadingEnvelope(heading, planned, noise[..last], bound);
      EnvelopeStep(first, bound, Decay(last));
      EnvelopeBelowHalfTurn(first, bound, Decay(last));
      var before := HeadingAfter(heading, planned, noise[..last]);
      assert Abs(0.8 * AngularDiff(before, planned) - noise[last]) <= 0.8 * Abs(AngularDiff(before, planned)) + bound;
      HeadingStep(before, planned, noise[last]);
    }
  }

  lemma BeyondHalfTurn(rest: real, bound: real, heading: real, planned: real)
    requires 0.0 <= rest && 36.0 <= bound
    ensures Abs(AngularDiff(heading, planned)) <= rest + 5.0 * bound
  {
  }

  lemma DecayedNonNegative(d: real, first: real)
    requires 0.0 < d && 0.0 <= first
    ensures 0.0 <= d * first
  {
  }

  /** The wrapped heading error obeys the same bound, whatever the noise and the first heading. */
  lemma HeadingReverts(heading: real, planned: real, noise: seq<real>, bound: real)
    requires 0.0 <= bound && Bounded(noise, bound)
    ensures Reverted(AngularDiff(HeadingAfter(heading, planned, noise), planned), AngularDiff(heading, planned),
                     |noise|, bound)
    ensures noise != [] ==> 0.0 <= HeadingAfter(heading, planned, noise) < 360.0
  {
    var first := Abs(AngularDiff(heading, planned));
    if bound < 36.0 {
      HeadingEnvelope(heading, planned, noise, bound);
      EnvelopeBound(first, bound, Decay(|noise|));
    } else {
      DecayedNonNegative(Decay(|noise|), first);
      BeyondHalfTurn(Decay(|noise|) * first, bound, HeadingAfter(heading, planned, noise), planned);
    }
  }

  /** The difference is -180 exactly for headings half a turn apart, and never 180. */
  lemma HalfTurnExactly(a: real, b: real)
    ensures AngularDiff(a, b) == -180.0 <==> Mod360(b - a) == 180.0
    ensures AngularDiff(a, b) != 180.0
  {
    var d := b - a;
    Mod360Turns(d, 1);
    Mod360Turns(d + 180.0, 1);
    assert AngularDiff(a, b) == Mod360(d + 180.0) - 180.0;
    HalfTurnOn(d);
  }

  lemma HalfTurnOn(d: real)
    ensures Mod360(d + 180.0) == 0.0 <==> Mod360(d) == 180.0
  {
    var m := Mod360(d);
    var turns := (d / 360.0).Floor;
    assert d == m + 360.0 * turns as real;
    Mod360Turns(m + 180.0, turns);
    assert d + 180.0 == (m + 180.0) + 360.0 * turns as real;
    if m + 180.0 < 360.0 {
      Mod360Turns(m + 180.0, 0);
    } else {
      Mod360Turns(m - 180.0, 1);
      assert m + 180.0 == (m - 180.0) + 360.0 * 1 as real;
    }
  }

  /** The documented range (-180, 180] is not the computed one: opposite headings differ by -180. */
  lemma OppositeHeadings()
    ensures AngularDiff(0.0, 180.0) == -180.0 && AngularDiff(180.0, 0.0) == -180.0
  {
    AngularDiffUnique(0.0, 180.0, -180.0, 1);
    AngularDiffUnique(180.0, 0.0, -180.0, 0);
  }

  // ----- a vessel at sea -----

  ghost function SpeedNoise(draws: seq<Draw>): (noise: seq<real>)
    ensures |noise| == |draws|
  {
    seq(|draws|, i requires 0 <= i < |draws| => draws[i].speedNoise)
  }

  lemma AtSeaTick(e: Setting, s: State, now: real, draw: Draw)
    requires e.Aboard(s) && !s.inPort && Voyages.Calls(Tick(e, s, now, draw).1) == []
    ensures var t := Tick(e, s, now, draw).0;
            !t.inPort && t.speed == RevertedSpeed(s.speed, e.vessel.CruiseSpeed(), draw.speedNoise)
  {
    Voyages.TickCalls(e, s, now, draw);
  }

  /** As long as it calls at no port, the speed of a vessel at sea follows the reverting speed. */
  lemma {:induction false} AtSeaSpeed(e: Setting, s: State, clock: nat -> real, draws: seq<Draw>)
    requires e.Aboard(s) && !s.inPort && Voyages.Run(e, s, clock, draws).1 == []
    ensures var t := Voyages.Run(e, s, clock, draws).0;
            !t.inPort && t.speed == SpeedAfter(s.speed, e.vessel.CruiseSpeed(), SpeedNoise(draws))
  {
    if draws != [] {
      var last := |draws| - 1;
      AtSeaSpeed(e, s, clock, draws[..last]);
      AtSeaTick(e, Voyages.Run(e, s, clock, draws[..last]).0, clock(|draws|), draws[last]);
      assert SpeedNoise(draws)[..last] == SpeedNoise(draws[..last]);
    }
  }

  lemma {:induction false} SpeedAtSea(e: Setting, s: State, clock: nat -> real, draws: seq<Draw>, bound: real)
    requires e.Aboard(s) && !s.inPort && Voyages.Run(e, s, clock, draws).1 == []
    requires 0.0 <= bound && Bounded(SpeedNoise(draws), bound)
    ensures var cruise := e.vessel.CruiseSpeed();
            Reverted(Voyages.Run(e, s, clock, draws).0.speed - cruise, s.speed - cruise, |draws|, bound)
  {
    AtSeaSpeed(e, s, clock, draws);
    SpeedReverts(s.speed, e.vessel.CruiseSpeed(), SpeedNoise(draws), bound);
  }

  lemma PilotSpeed(e: Setting, s: State, now: real)
    requires e.Aboard(s)
    ensures var t := Depart(e, s, now).0;
            e.Aboard(t) && !t.inPort && t.speed - e.vessel.CruiseSpeed() == -0.5 * e.vessel.CruiseSpeed()
  {
  }

  /** n ticks after departure, still at sea, a vessel is within 0.8^n of half its cruise speed plus 5N of that speed. */
  lemma {:induction false} DepartedSpeed(e: Setting, s: State, now: real, clock: nat -> real, draws: seq<Draw>,
                                         bound: real)
    requires e.Aboard(s) && 0.0 <= bound && Bounded(SpeedNoise(draws), bound)
    requires Voyages.Run(e, Depart(e, s, now).0, clock, draws).1 == []
    ensures var t, cruise := Voyages.Run(e, Depart(e, s, now).0, clock, draws).0, e.vessel.CruiseSpeed();
            Reverted(t.speed - cruise, -0.5 * cruise, |draws|, bound)
  {
    PilotSpeed(e, s, now);
    SpeedAtSea(e, Depart(e, s, now).0, clock, draws, bound);
  }
}
