/**
 * The simulator's tick loop and its batch (sim/runner.py, sim/events.py). The world's yields, the backend's replies
 * and the moment the stop event is seen are inputs: a run is the list of ticks that were driven before the stop.
 */
module Runner {
  import opened Wrappers
  import opened Rounding

  /** What world.step yields for one vessel: a report, then its events, already as rows. */
  datatype Yield<R> = Yield(report: R, events: seq<R>)

  datatype Reply = Sent(accepted: int, rejected: int) | Failed

  /** One tick of the run, with the backend's reply should this tick flush. */
  datatype Tick<R> = Tick(steps: seq<Yield<R>>, reply: Reply)

  datatype Config = Config(tickSeconds: real, flushInterval: real, maxSize: Option<int>, dryRun: bool)

  datatype Counts = Counts(ticks: int, flushes: int, reports: int, events: int, accepted: int, rejected: int)

  /** A batch handed to _flush, with the number of ticks driven by then and what came of it. */
  datatype Flush<R> = Flush(tick: int, rows: seq<R>, answer: Reply)

  datatype State<R> = State(batch: seq<R>, since: int, counts: Counts, log: seq<Flush<R>>)

  // ----- the specification -----

  function Start<R>(carry: seq<R>): State<R> {
    State(carry, 0, Counts(0, 0, 0, 0, 0, 0), [])
  }

  function AddYield<R>(s: State<R>, y: Yield<R>): State<R> {
    s.(batch := s.batch + [y.report] + y.events,
       counts := s.counts.(reports := s.counts.reports + 1, events := s.counts.events + |y.events|))
  }

  function AddYields<R>(s: State<R>, steps: seq<Yield<R>>): State<R> {
    if steps == [] then s
    else AddYield(AddYields(s, steps[..|steps| - 1]), steps[|steps| - 1])
  }

  predicate IntervalElapsed(c: Config, since: int) {
    c.flushInterval <= 0.0 || since as real * c.tickSeconds >= c.flushInterval
  }

  predicate Full(maxSize: Option<int>, size: nat) {
    maxSize.Some? && size >= maxSize.value
  }

  predicate FlushDue<R>(c: Config, s: State<R>) {
    Full(c.maxSize, |s.batch|) || (IntervalElapsed(c, s.since) && |s.batch| != 0)
  }

  /** A failed send drops the batch and is not counted. */
  function Counted(c: Config, counts: Counts, reply: Reply): Counts {
    if c.dryRun then counts.(flushes := counts.flushes + 1)
    else match reply
      case Failed => counts
      case Sent(a, r) =>
        counts.(flushes := counts.flushes + 1, accepted := counts.accepted + a, rejected := counts.rejected + r)
  }

  /** A dry run counts as sent, with nothing accepted or rejected. */
  function AnswerTo(c: Config, reply: Reply): Reply {
    if c.dryRun then Sent(0, 0) else reply
  }

  function FlushNow<R>(c: Config, s: State<R>, reply: Reply): State<R> {
    s.(batch := [], counts := Counted(c, s.counts, reply),
       log := s.log + [Flush(s.counts.ticks, s.batch, AnswerTo(c, reply))])
  }

  /** The batch as the flush test of a tick sees it. */
  function Driven<R>(s: State<R>, steps: seq<Yield<R>>): State<R> {
    var t := AddYields(s, steps);
    t.(since := t.since + 1, counts := t.counts.(ticks := t.counts.ticks + 1))
  }

  function DriveTick<R>(c: Config, s: State<R>, tick: Tick<R>): State<R> {
    var t := Driven(s, tick.steps);
    if FlushDue(c, t) then FlushNow(c, t, tick.reply).(since := 0) else t
  }

  function Drive<R>(c: Config, carry: seq<R>, ticks: seq<Tick<R>>): State<R> {
    if ticks == [] then Start(carry)
    else DriveTick(c, Drive(c, carry, ticks[..|ticks| - 1]), ticks[|ticks| - 1])
  }

  function Finish<R>(c: Config, s: State<R>, reply: Reply): State<R> {
    if |s.batch| != 0 then FlushNow(c, s, reply) else s
  }

  /** max_iterations bounds the run when it is positive. */
  function Bounded(ticks: nat, maxIterations: int): nat {
    if 0 < maxIterations < ticks then maxIterations else ticks
  }

  // ----- the code -----

  class EventBatch<R> {
    var reports: seq<R>
    const maxSize: Option<int>

    constructor (maxSize: Option<int>)
      ensures reports == [] && this.maxSize == maxSize
    {
      reports, this.maxSize := [], maxSize;
    }

    method AddReport(report: R)
      modifies this
      ensures reports == old(reports) + [report]
    {
      reports := reports + [report];
    }

    method AddEvent(event: R)
      modifies this
      ensures reports == old(reports) + [event]
    {
      reports := reports + [event];
    }

    method Clear()
      modifies this
      ensures reports == []
    {
      reports := [];
    }

    predicate IsEmpty()
      reads this
    {
      |reports| == 0
    }

    predicate IsFull()
      reads this
    {
      maxSize.Some? && |reports| >= maxSize.value
    }
  }

  class Stats {
    var ticks: int
    var flushes: int
    var reportsEmitted: int
    var eventsEmitted: int
    var accepted: int
    var rejected: int

    constructor ()
      ensures Value() == Counts(0, 0, 0, 0, 0, 0)
    {
      ticks, flushes, reportsEmitted, eventsEmitted, accepted, rejected := 0, 0, 0, 0, 0, 0;
    }

    ghost function Value(): Counts
      reads this
    {
      Counts(ticks, flushes, reportsEmitted, eventsEmitted, accepted, rejected)
    }
  }

  method EmitYield<R>(batch: EventBatch<R>, stats: Stats, y: Yield<R>, ghost s: State<R>)
    requires batch.reports == s.batch && stats.Value() == s.counts
    modifies batch, stats
    ensures batch.reports == AddYield(s, y).batch && stats.Value() == AddYield(s, y).counts
  {
    batch.AddReport(y.report);
    stats.reportsEmitted := stats.reportsEmitted + 1;
    for k := 0 to |y.events|
      invariant batch.reports == s.batch + [y.report] + y.events[..k]
      invariant stats.Value() == s.counts.(reports := s.counts.reports + 1, events := s.counts.events + k)
    {
      batch.AddEvent(y.events[k]);
      stats.eventsEmitted := stats.eventsEmitted + 1;
      assert y.events[..k + 1] == y.events[..k] + [y.events[k]];
    }
    assert y.events[..|y.events|] == y.events;
  }

  lemma AddYieldsSnoc<R>(s: State<R>, steps: seq<Yield<R>>, k: nat)
    requires k < |steps|
    ensures AddYields(s, steps[..k + 1]) == AddYield(AddYields(s, steps[..k]), steps[k])
  {
    assert steps[..k + 1][..k] == steps[..k];
  }

  method EmitYields<R>(batch: EventBatch<R>, stats: Stats, steps: seq<Yield<R>>, ghost s: State<R>)
    requires batch.reports == s.batch && stats.Value() == s.counts
    modifies batch, stats
    ensures batch.reports == AddYields(s, steps).batch && stats.Value() == AddYields(s, steps).counts
  {
    for k := 0 to |steps|
      invariant batch.reports == AddYields(s, steps[..k]).batch
      invariant stats.Value() == AddYields(s, steps[..k]).counts
    {
      AddYieldsSnoc(s, steps, k);
      EmitYield(batch, stats, steps[k], AddYields(s, steps[..k]));
    }
    assert steps[..|steps|] == steps;
  }

  /** The backend, as far as the runner sees it: the batches posted to it, in order. */
  class Client<R> {
    var posts: seq<seq<R>>

    constructor ()
      ensures posts == []
    {
      posts := [];
    }

    method SendBatch(batch: EventBatch<R>)
      modifies this
      ensures posts == old(posts) + [batch.reports]
    {
      posts := posts + [batch.reports];
    }
  }

  /** What the flushes of a log post: nothing in a dry run. */
  function Posts<R>(c: Config, log: seq<Flush<R>>): seq<seq<R>> {
    if c.dryRun then [] else seq(|log|, i requires 0 <= i < |log| => log[i].rows)
  }

  lemma PostsAppend<R>(c: Config, a: seq<Flush<R>>, b: seq<Flush<R>>)
    ensures Posts(c, a + b) == Posts(c, a) + Posts(c, b)
  {
  }

  /** _flush; sent is what it hands over. */
  method FlushBatch<R>(c: Config, batch: EventBatch<R>, client: Client<R>, stats: Stats, reply: Reply,
                       ghost s: State<R>)
    returns (ghost sent: Flush<R>)
    requires batch.reports == s.batch && stats.Value() == s.counts
    modifies batch, client, stats
    ensures batch.reports == FlushNow(c, s, reply).batch && stats.Value() == FlushNow(c, s, reply).counts
    ensures sent.rows == old(batch.reports) && FlushNow(c, s, reply).log == s.log + [sent]
    ensures client.posts == old(client.posts) + Posts(c, [sent])
  {
    sent := Flush(stats.ticks, batch.reports, AnswerTo(c, reply));
    if !c.dryRun {
      client.SendBatch(batch);
      if reply.Failed? {
        batch.Clear();
        return;
      }
      stats.accepted := stats.accepted + reply.accepted;
      stats.rejected := stats.rejected + reply.rejected;
    }
    stats.flushes := stats.flushes + 1;
    batch.Clear();
  }

  /** One round of the loop; log holds its flush, if it has one. */
  method TickAndFlush<R>(c: Config, batch: EventBatch<R>, client: Client<R>, stats: Stats, since: int, tick: Tick<R>,
                         ghost s: State<R>)
    returns (since': int, ghost log: seq<Flush<R>>)
    requires batch.reports == s.batch && stats.Value() == s.counts && since == s.since
    requires batch.maxSize == c.maxSize
    modifies batch, client, stats
    ensures batch.reports == DriveTick(c, s, tick).batch && stats.Value() == DriveTick(c, s, tick).counts
    ensures since' == DriveTick(c, s, tick).since && DriveTick(c, s, tick).log == s.log + log
    ensures client.posts == old(client.posts) + Posts(c, log)
  {
    SinceKept(s, tick.steps);
    EmitYields(batch, stats, tick.steps, s);
    stats.ticks := stats.ticks + 1;
    since' := since + 1;
    log := [];
    ghost var t := Driven(s, tick.steps);
    var elapsed := c.flushInterval <= 0.0 || since' as real * c.tickSeconds >= c.flushInterval;
    if batch.IsFull() || (elapsed && !batch.IsEmpty()) {
      ghost var sent := FlushBatch(c, batch, client, stats, tick.reply, t);
      log := [sent];
      since' := 0;
    }
  }

  /** The loop of run_loop, on the ticks that were driven before the stop was seen. */
  method DriveTicks<R>(c: Config, batch: EventBatch<R>, client: Client<R>, stats: Stats, ticks: seq<Tick<R>>,
                       maxIterations: int)
    returns (ghost log: seq<Flush<R>>)
    requires batch.maxSize == c.maxSize && stats.Value() == Counts(0, 0, 0, 0, 0, 0)
    modifies batch, client, stats
    ensures var s := Drive(c, old(batch.reports), ticks[..Bounded(|ticks|, maxIterations)]);
            batch.reports == s.batch && stats.Value() == s.counts && log == s.log
    ensures client.posts == old(client.posts) + Posts(c, log)
  {
    ghost var carry := batch.reports;
    log := [];
    var since, i := 0, 0;
    var stop := |ticks| == 0;
    while !stop
      invariant 0 <= i <= |ticks| && (maxIterations > 0 ==> i <= maxIterations)
      invariant stop <==> i == |ticks| || (maxIterations > 0 && i == maxIterations)
      invariant batch.reports == Drive(c, carry, ticks[..i]).batch && log == Drive(c, carry, ticks[..i]).log
      invariant stats.Value() == Drive(c, carry, ticks[..i]).counts && since == Drive(c, carry, ticks[..i]).since
      invariant client.posts == old(client.posts) + Posts(c, log)
      decreases |ticks| - i, !stop
    {
      DriveSnoc(c, carry, ticks, i);
      TicksDriven(c, carry, ticks[..i + 1]);
      ghost var more;
      since, more := TickAndFlush(c, batch, client, stats, since, ticks[i], Drive(c, carry, ticks[..i]));
      PostsAppend(c, log, more);
      log := log + more;
      i := i + 1;
      stop := i == |ticks| || (maxIterations > 0 && stats.ticks >= maxIterations);
    }
  }

  /** run_loop; log holds its flushes. */
  method RunLoop<R>(c: Config, batch: EventBatch<R>, client: Client<R>, ticks: seq<Tick<R>>, maxIterations: int,
                    lastReply: Reply)
    returns (stats: Stats, ghost log: seq<Flush<R>>)
    requires batch.maxSize == c.maxSize
    modifies batch, client
    ensures fresh(stats)
    ensures var driven := ticks[..Bounded(|ticks|, maxIterations)];
            var final := Finish(c, Drive(c, old(batch.reports), driven), lastReply);
            stats.Value() == final.counts && batch.reports == final.batch == [] && log == final.log
    ensures client.posts == old(client.posts) + Posts(c, log)
  {
    ghost var carry := batch.reports;
    stats := new Stats();
    log := DriveTicks(c, batch, client, stats, ticks, maxIterations);
    if !batch.IsEmpty() {
      ghost var s := Drive(c, carry, ticks[..Bounded(|ticks|, maxIterations)]);
      ghost var sent := FlushBatch(c, batch, client, stats, lastReply, s);
      PostsAppend(c, log, [sent]);
      log := log + [sent];
    }
  }

  lemma {:induction false} SinceKept<R>(s: State<R>, steps: seq<Yield<R>>)
    ensures var t := AddYields(s, steps); t.since == s.since && t.log == s.log && t.counts.ticks == s.counts.ticks
  {
    if steps != [] { SinceKept(s, steps[..|steps| - 1]); }
  }

  lemma DriveSnoc<R>(c: Config, carry: seq<R>, ticks: seq<Tick<R>>, i: nat)
    requires i < |ticks|
    ensures Drive(c, carry, ticks[..i + 1]) == DriveTick(c, Drive(c, carry, ticks[..i]), ticks[i])
  {
    assert ticks[..i + 1][..i] == ticks[..i];
  }

  lemma {:induction false} TicksDriven<R>(c: Config, carry: seq<R>, ticks: seq<Tick<R>>)
    ensures Drive(c, carry, ticks).counts.ticks == |ticks|
  {
    if ticks != [] {
      var n := |ticks| - 1;
      TicksDriven(c, carry, ticks[..n]);
      SinceKept(Drive(c, carry, ticks[..n]), ticks[n].steps);
    }
  }

  // ----- conservation -----

  /** Each report, followed by its own events. */
  function Rows<R>(steps: seq<Yield<R>>): seq<R> {
    if steps == [] then []
    else Rows(steps[..|steps| - 1]) + [steps[|steps| - 1].report] + steps[|steps| - 1].events
  }

  function Stream<R>(ticks: seq<Tick<R>>): seq<R> {
    if ticks == [] then [] else Stream(ticks[..|ticks| - 1]) + Rows(ticks[|ticks| - 1].steps)
  }

  function Concat<R>(log: seq<Flush<R>>): seq<R> {
    if log == [] then [] else Concat(log[..|log| - 1]) + log[|log| - 1].rows
  }

  lemma ConcatSnoc<R>(log: seq<Flush<R>>, f: Flush<R>)
    ensures Concat(log + [f]) == Concat(log) + f.rows
  {
    assert (log + [f])[..|log|] == log;
  }

  lemma {:induction false} YieldsAppend<R>(s: State<R>, steps: seq<Yield<R>>)
    ensures AddYields(s, steps).batch == s.batch + Rows(steps)
    ensures var t := AddYields(s, steps).counts;
            t.reports + t.events == s.counts.reports + s.counts.events + |Rows(steps)|
            && t.reports == s.counts.reports + |steps|
            && t == s.counts.(reports := t.reports, events := t.events)
  {
    if steps != [] { YieldsAppend(s, steps[..|steps| - 1]); }
  }

  lemma TickConserves<R>(c: Config, s: State<R>, tick: Tick<R>)
    ensures var t := DriveTick(c, s, tick);
            Concat(t.log) + t.batch == Concat(s.log) + s.batch + Rows(tick.steps)
  {
    YieldsAppend(s, tick.steps);
    SinceKept(s, tick.steps);
    var d := Driven(s, tick.steps);
    ConcatSnoc(s.log, Flush(d.counts.ticks, d.batch, AnswerTo(c, tick.reply)));
    assert Concat(s.log) + d.batch + [] == Concat(s.log) + s.batch + Rows(tick.steps);
  }

  lemma StreamGrows<R>(carry: seq<R>, ticks: seq<Tick<R>>, n: nat, before: seq<R>, after: seq<R>)
    requires |ticks| == n + 1 && before == carry + Stream(ticks[..n]) && after == before + Rows(ticks[n].steps)
    ensures after == carry + Stream(ticks)
  {
  }

  /** At any moment, what was flushed followed by what is buffered is what was emitted, in order. */
  lemma {:induction false} StreamConserved<R>(c: Config, carry: seq<R>, ticks: seq<Tick<R>>)
    ensures var s := Drive(c, carry, ticks); Concat(s.log) + s.batch == carry + Stream(ticks)
  {
    if ticks == [] {
      assert Drive(c, carry, ticks).log == [];
    } else {
      var n := |ticks| - 1;
      var s, t := Drive(c, carry, ticks[..n]), Drive(c, carry, ticks);
      StreamConserved(c, carry, ticks[..n]);
      TickConserves(c, s, ticks[n]);
      StreamGrows(carry, ticks, n, Concat(s.log) + s.batch, Concat(t.log) + t.batch);
    }
  }

  /** After the run the flushed batches, one after the other, are the emitted stream. */
  lemma NothingLeftBehind<R>(c: Config, carry: seq<R>, ticks: seq<Tick<R>>, reply: Reply)
    ensures var final := Finish(c, Drive(c, carry, ticks), reply);
            final.batch == [] && Concat(final.log) == carry + Stream(ticks)
  {
    var s := Drive(c, carry, ticks);
    StreamConserved(c, carry, ticks);
    ConcatSnoc(s.log, Flush(s.counts.ticks, s.batch, AnswerTo(c, reply)));
  }

  // ----- counts -----

  function Sizes<R>(log: seq<Flush<R>>): int {
    if log == [] then 0 else Sizes(log[..|log| - 1]) + |log[|log| - 1].rows|
  }

  function Delivered<R>(log: seq<Flush<R>>): int {
    if log == [] then 0 else Delivered(log[..|log| - 1]) + if log[|log| - 1].answer.Sent? then 1 else 0
  }

  lemma {:induction false} SizesOfConcat<R>(log: seq<Flush<R>>)
    ensures Sizes(log) == |Concat(log)|
  {
    if log != [] { SizesOfConcat(log[..|log| - 1]); }
  }

  lemma DeliveredSnoc<R>(log: seq<Flush<R>>, f: Flush<R>)
    ensures Delivered(log + [f]) == Delivered(log) + if f.answer.Sent? then 1 else 0
  {
    assert (log + [f])[..|log|] == log;
  }

  /** What the backend says it accepted, over the batches it answered. */
  ghost function Accepted<R>(log: seq<Flush<R>>): int {
    if log == [] then 0
    else
      var last := log[|log| - 1];
      Accepted(log[..|log| - 1]) + if last.answer.Sent? then last.answer.accepted else 0
  }

  ghost function Rejected<R>(log: seq<Flush<R>>): int {
    if log == [] then 0
    else
      var last := log[|log| - 1];
      Rejected(log[..|log| - 1]) + if last.answer.Sent? then last.answer.rejected else 0
  }

  lemma AnswersSnoc<R>(log: seq<Flush<R>>, f: Flush<R>)
    ensures Accepted(log + [f]) == Accepted(log) + if f.answer.Sent? then f.answer.accepted else 0
    ensures Rejected(log + [f]) == Rejected(log) + if f.answer.Sent? then f.answer.rejected else 0
  {
    assert (log + [f])[..|log|] == log;
  }

  ghost predicate AnswersCounted<R>(s: State<R>) {
    s.counts.accepted == Accepted(s.log) && s.counts.rejected == Rejected(s.log)
  }

  lemma FlushAnswers<R>(c: Config, s: State<R>, reply: Reply)
    requires AnswersCounted(s)
    ensures AnswersCounted(FlushNow(c, s, reply))
  {
    AnswersSnoc(s.log, Flush(s.counts.ticks, s.batch, AnswerTo(c, reply)));
  }

  lemma {:induction false} AnswersKept<R>(c: Config, carry: seq<R>, ticks: seq<Tick<R>>)
    ensures AnswersCounted(Drive(c, carry, ticks))
  {
    if ticks != [] {
      var n := |ticks| - 1;
      var s := Drive(c, carry, ticks[..n]);
      AnswersKept(c, carry, ticks[..n]);
      YieldsAppend(s, ticks[n].steps);
      SinceKept(s, ticks[n].steps);
      FlushAnswers(c, Driven(s, ticks[n].steps), ticks[n].reply);
    }
  }

  /** What came of a flush is what the backend replied to that tick's batch; a dry run asks nobody. */
  ghost predicate Answered<R>(c: Config, ticks: seq<Tick<R>>, f: Flush<R>) {
    1 <= f.tick <= |ticks| && f.answer == if c.dryRun then Sent(0, 0) else ticks[f.tick - 1].reply
  }

  lemma {:induction false} AnswersAreReplies<R>(c: Config, carry: seq<R>, ticks: seq<Tick<R>>)
    ensures forall f :: f in Drive(c, carry, ticks).log ==> Answered(c, ticks, f)
  {
    if ticks != [] {
      var n := |ticks| - 1;
      var s := Drive(c, carry, ticks[..n]);
      AnswersAreReplies(c, carry, ticks[..n]);
      TicksDriven(c, carry, ticks[..n]);
      SinceKept(s, ticks[n].steps);
      forall f | f in Drive(c, carry, ticks).log ensures Answered(c, ticks, f) {
        if f in s.log {
          assert Answered(c, ticks[..n], f);
        } else {
          assert f == Flush(n + 1, Driven(s, ticks[n].steps).batch, AnswerTo(c, ticks[n].reply));
        }
      }
    }
  }

  /** The number of yields of a run. */
  ghost function Yields<R>(ticks: seq<Tick<R>>): int {
    if ticks == [] then 0 else Yields(ticks[..|ticks| - 1]) + |ticks[|ticks| - 1].steps|
  }

  lemma FlushCounts<R>(c: Config, s: State<R>, reply: Reply)
    requires s.counts.flushes == Delivered(s.log)
    ensures var t := FlushNow(c, s, reply);
            t.counts.flushes == Delivered(t.log) && t.counts.ticks == s.counts.ticks
            && t.counts.reports == s.counts.reports && t.counts.events == s.counts.events
  {
    DeliveredSnoc(s.log, Flush(s.counts.ticks, s.batch, AnswerTo(c, reply)));
  }

  lemma {:induction false} CountsKept<R>(c: Config, carry: seq<R>, ticks: seq<Tick<R>>)
    ensures var s := Drive(c, carry, ticks);
            && s.counts.flushes == Delivered(s.log) && s.counts.reports == Yields(ticks)
            && s.counts.reports + s.counts.events == |Stream(ticks)|
  {
    if ticks != [] {
      var n := |ticks| - 1;
      var s := Drive(c, carry, ticks[..n]);
      CountsKept(c, carry, ticks[..n]);
      YieldsAppend(s, ticks[n].steps);
      SinceKept(s, ticks[n].steps);
      FlushCounts(c, Driven(s, ticks[n].steps), ticks[n].reply);
    }
  }

  /** The final counts: what was emitted is what was flushed, one report per yield; only batches that were answered
     count as flushes, and what was accepted and rejected is what their answers add up to. */
  lemma FinalCounts<R>(c: Config, carry: seq<R>, ticks: seq<Tick<R>>, reply: Reply)
    ensures var final := Finish(c, Drive(c, carry, ticks), reply);
            final.counts.ticks == |ticks|
            && |carry| + final.counts.reports + final.counts.events == Sizes(final.log)
            && final.counts.reports == Yields(ticks) && final.counts.flushes == Delivered(final.log)
            && final.counts.accepted == Accepted(final.log) && final.counts.rejected == Rejected(final.log)
    ensures var s := Drive(c, carry, ticks);
            Finish(c, s, reply).log == if s.batch == [] then s.log
                                       else s.log + [Flush(|ticks|, s.batch, if c.dryRun then Sent(0, 0) else reply)]
  {
    TicksDriven(c, carry, ticks);
    CountsKept(c, carry, ticks);
    FlushCounts(c, Drive(c, carry, ticks), reply);
    AnswersKept(c, carry, ticks);
    FlushAnswers(c, Drive(c, carry, ticks), reply);
    NothingLeftBehind(c, carry, ticks, reply);
    SizesOfConcat(Finish(c, Drive(c, carry, ticks), reply).log);
  }

  // ----- batch sizes -----

  /** A batch holds at most what fitted below the cap plus the yield of the tick that flushed it. */
  ghost predicate FlushBounded<R>(cap: int, ticks: seq<Tick<R>>, f: Flush<R>) {
    1 <= f.tick <= |ticks| && |f.rows| <= cap - 1 + |Rows(ticks[f.tick - 1].steps)|
  }

  lemma TickBounded<R>(c: Config, s: State<R>, tick: Tick<R>, cap: int)
    requires c.maxSize == Some(cap) && |s.batch| < cap
    ensures var t := DriveTick(c, s, tick);
            |t.batch| < cap
            && (t.log == s.log
                || exists f :: t.log == s.log + [f] && f.tick == s.counts.ticks + 1
                               && |f.rows| <= cap - 1 + |Rows(tick.steps)|)
  {
    YieldsAppend(s, tick.steps);
    SinceKept(s, tick.steps);
    var d := Driven(s, tick.steps);
    if FlushDue(c, d) {
      var f := Flush(d.counts.ticks, d.batch, AnswerTo(c, tick.reply));
      assert DriveTick(c, s, tick).log == s.log + [f];
    }
  }

  lemma {:induction false} BatchesBounded<R>(c: Config, carry: seq<R>, ticks: seq<Tick<R>>, cap: int)
    requires c.maxSize == Some(cap) && |carry| < cap
    ensures var s := Drive(c, carry, ticks);
            |s.batch| < cap && forall f :: f in s.log ==> FlushBounded(cap, ticks, f)
  {
    if ticks != [] {
      var n := |ticks| - 1;
      var s := Drive(c, carry, ticks[..n]);
      BatchesBounded(c, carry, ticks[..n], cap);
      TicksDriven(c, carry, ticks[..n]);
      TickBounded(c, s, ticks[n], cap);
      forall f | f in s.log ensures FlushBounded(cap, ticks, f) {
        assert FlushBounded(cap, ticks[..n], f);
      }
    }
  }

  /** The flush after the loop stays below the cap. */
  lemma LastBatchBounded<R>(c: Config, carry: seq<R>, ticks: seq<Tick<R>>, cap: int, reply: Reply)
    requires c.maxSize == Some(cap) && |carry| < cap
    ensures var s, final := Drive(c, carry, ticks), Finish(c, Drive(c, carry, ticks), reply);
            final.log == s.log || (|final.log| == |s.log| + 1 && |final.log[|s.log|].rows| < cap)
  {
    BatchesBounded(c, carry, ticks, cap);
  }

  ghost predicate Within<R>(cap: int, log: seq<Flush<R>>) {
    forall f :: f in log ==> |f.rows| <= cap
  }

  /** Every vessel reports once and makes at most one event. */
  ghost predicate OneEventEach<R>(steps: seq<Yield<R>>) {
    forall i :: 0 <= i < |steps| ==> |steps[i].events| <= 1
  }

  lemma {:induction false} RowsPerVessel<R>(steps: seq<Yield<R>>)
    ensures |steps| <= |Rows(steps)|
    ensures OneEventEach(steps) ==> |Rows(steps)| <= 2 * |steps|
    ensures (forall i :: 0 <= i < |steps| ==> steps[i].events == []) ==> |Rows(steps)| == |steps|
  {
    if steps != [] { RowsPerVessel(steps[..|steps| - 1]); }
  }

  /** Quiet vessels, one more than the cap, fill a batch beyond it in a single tick. */
  lemma CapCanBeExceeded<R>(c: Config, report: R, reply: Reply, cap: nat)
    requires c.maxSize == Some(cap)
    ensures var s := Drive(c, [], [Tick(seq(cap + 1, i => Yield(report, [])), reply)]);
            |s.log| == 1 && |s.log[0].rows| == cap + 1
  {
    var steps := seq(cap + 1, i => Yield(report, []));
    var ticks := [Tick(steps, reply)];
    RowsPerVessel(steps);
    YieldsAppend(Start([]), steps);
    SinceKept(Start([]), steps);
    assert Drive(c, [], ticks[..|ticks| - 1]) == Start([]);
    assert Drive(c, [], ticks) == DriveTick(c, Start([]), ticks[0]);
  }

  // ----- empty batches -----

  ghost predicate NoneEmpty<R>(log: seq<Flush<R>>) {
    forall f :: f in log ==> |f.rows| > 0
  }

  /** The cap is absent or positive, or every tick has something to flush. */
  ghost predicate NeverIdle<R>(c: Config, carry: seq<R>, ticks: seq<Tick<R>>) {
    || c.maxSize.None? || c.maxSize.value > 0
    || forall i :: 0 <= i < |ticks| ==> ticks[i].steps != [] || (i == 0 && carry != [])
  }

  lemma {:induction false} RowsNonEmpty<R>(steps: seq<Yield<R>>)
    ensures |Rows(steps)| > 0 <==> steps != []
  {
  }

  lemma TickFlushes<R>(c: Config, s: State<R>, tick: Tick<R>)
    ensures NoneEmpty(DriveTick(c, s, tick).log)
       <==> (NoneEmpty(s.log) && (c.maxSize.None? || c.maxSize.value > 0 || s.batch != [] || tick.steps != []))
    ensures c.maxSize.Some? && c.maxSize.value <= 0 ==> DriveTick(c, s, tick).batch == []
  {
    YieldsAppend(s, tick.steps);
    RowsNonEmpty(tick.steps);
    SinceKept(s, tick.steps);
    var d := Driven(s, tick.steps);
    if FlushDue(c, d) {
      var f := Flush(d.counts.ticks, d.batch, AnswerTo(c, tick.reply));
      assert DriveTick(c, s, tick).log == s.log + [f];
      assert f in s.log + [f];
      assert forall g :: g in s.log ==> g in s.log + [f];
    }
  }

  lemma NeverIdleSnoc<R>(c: Config, carry: seq<R>, ticks: seq<Tick<R>>, n: nat)
    requires |ticks| == n + 1
    ensures NeverIdle(c, carry, ticks)
       <==> (NeverIdle(c, carry, ticks[..n])
             && (c.maxSize.None? || c.maxSize.value > 0 || ticks[n].steps != [] || (n == 0 && carry != [])))
  {
    assert forall i :: 0 <= i < n ==> ticks[..n][i] == ticks[i];
  }

  /** An empty batch is flushed exactly when the cap is zero or less and some tick has nothing to flush. */
  lemma {:induction false} EmptyFlushExactly<R>(c: Config, carry: seq<R>, ticks: seq<Tick<R>>)
    ensures NoneEmpty(Drive(c, carry, ticks).log) <==> NeverIdle(c, carry, ticks)
    ensures c.maxSize.Some? && c.maxSize.value <= 0 && ticks != [] ==> Drive(c, carry, ticks).batch == []
  {
    if ticks != [] {
      var n := |ticks| - 1;
      EmptyFlushExactly(c, carry, ticks[..n]);
      TickFlushes(c, Drive(c, carry, ticks[..n]), ticks[n]);
      NeverIdleSnoc(c, carry, ticks, n);
      assert n == 0 ==> Drive(c, carry, ticks[..n]).batch == carry;
    }
  }

  // ----- how often a flush happens -----

  /** The flush interval in whole ticks. */
  function Period(c: Config): (k: int)
    requires c.tickSeconds > 0.0
    ensures k >= 1
  {
    if c.flushInterval <= 0.0 then 1
    else
      assert c.flushInterval / c.tickSeconds > 0.0;
      Ceil(c.flushInterval / c.tickSeconds)
  }

  lemma TimesDividend(k: int, x: real, t: real)
    requires t > 0.0
    ensures k as real * t >= x <==> k as real >= x / t
  {
    var q := x / t;
    assert q * t == x;
    Scaled(q, k as real, t);
  }

  lemma ElapsedExactly(c: Config, since: int)
    requires c.tickSeconds > 0.0 && since >= 1
    ensures IntervalElapsed(c, since) <==> since >= Period(c)
  {
    if c.flushInterval > 0.0 {
      TimesDividend(since, c.flushInterval, c.tickSeconds);
    }
  }

  ghost predicate Busy<R>(ticks: seq<Tick<R>>) {
    forall i :: 0 <= i < |ticks| ==> ticks[i].steps != []
  }

  function LastFlush<R>(log: seq<Flush<R>>): int {
    if log == [] then 0 else log[|log| - 1].tick
  }

  lemma TickTiming<R>(c: Config, s: State<R>, tick: Tick<R>)
    requires c.tickSeconds > 0.0 && tick.steps != [] && 0 <= s.since < Period(c)
    requires s.since == s.counts.ticks - LastFlush(s.log)
    ensures var t := DriveTick(c, s, tick);
            0 <= t.since < Period(c) && t.counts.ticks == s.counts.ticks + 1
            && t.since == t.counts.ticks - LastFlush(t.log)
    ensures var t := DriveTick(c, s, tick);
            c.maxSize.None? && s.since + 1 < Period(c) ==> t.log == s.log && t.since == s.since + 1
    ensures var t := DriveTick(c, s, tick);
            s.since + 1 == Period(c) ==> t.since == 0 && |t.log| == |s.log| + 1 && s.log == t.log[..|s.log|]
  {
    YieldsAppend(s, tick.steps);
    RowsNonEmpty(tick.steps);
    SinceKept(s, tick.steps);
    ElapsedExactly(c, s.since + 1);
  }

  lemma {:induction false} SinceBelowPeriod<R>(c: Config, carry: seq<R>, ticks: seq<Tick<R>>)
    requires c.tickSeconds > 0.0 && Busy(ticks)
    ensures var s := Drive(c, carry, ticks);
            0 <= s.since < Period(c) && s.counts.ticks == |ticks| && s.since == |ticks| - LastFlush(s.log)
  {
    if ticks != [] {
      var n := |ticks| - 1;
      assert Busy(ticks[..n]);
      SinceBelowPeriod(c, carry, ticks[..n]);
      TickTiming(c, Drive(c, carry, ticks[..n]), ticks[n]);
    }
  }

  lemma {:induction false} LogOnlyGrows<R>(c: Config, carry: seq<R>, ticks: seq<Tick<R>>, m: nat)
    requires m <= |ticks|
    ensures Drive(c, carry, ticks[..m]).log <= Drive(c, carry, ticks).log
  {
    var n := |ticks| - 1;
    if m <= n {
      LogOnlyGrows(c, carry, ticks[..n], m);
      assert ticks[..n][..m] == ticks[..m];
      SinceKept(Drive(c, carry, ticks[..n]), ticks[n].steps);
    } else {
      assert ticks[..m] == ticks;
    }
  }

  /** With vessels to report, every stretch of one period contains a flush. */
  lemma FlushesEveryPeriod<R>(c: Config, carry: seq<R>, ticks: seq<Tick<R>>, t: nat)
    requires c.tickSeconds > 0.0 && Busy(ticks) && t + Period(c) <= |ticks|
    ensures exists j :: 0 <= j < |Drive(c, carry, ticks).log|
                        && t < Drive(c, carry, ticks).log[j].tick <= t + Period(c)
  {
    var m := t + Period(c);
    assert Busy(ticks[..m]);
    SinceBelowPeriod(c, carry, ticks[..m]);
    LogOnlyGrows(c, carry, ticks, m);
    var log := Drive(c, carry, ticks[..m]).log;
    assert Drive(c, carry, ticks).log[|log| - 1] == log[|log| - 1];
  }

  /** Without a cap, the flushes fall on the multiples of the period and on no other tick. */
  lemma {:induction false} UncappedFlushTicks<R>(c: Config, carry: seq<R>, ticks: seq<Tick<R>>)
    requires c.tickSeconds > 0.0 && Busy(ticks) && c.maxSize.None?
    ensures var s := Drive(c, carry, ticks);
            |ticks| == |s.log| * Period(c) + s.since && 0 <= s.since < Period(c)
            && forall j :: 0 <= j < |s.log| ==> s.log[j].tick == (j + 1) * Period(c)
  {
    SinceBelowPeriod(c, carry, ticks);
    if ticks != [] {
      var n := |ticks| - 1;
      assert Busy(ticks[..n]);
      UncappedFlushTicks(c, carry, ticks[..n]);
      SinceBelowPeriod(c, carry, ticks[..n]);
      TickTiming(c, Drive(c, carry, ticks[..n]), ticks[n]);
      UncappedStep(Drive(c, carry, ticks[..n]), Drive(c, carry, ticks), n, Period(c));
    }
  }

  lemma UncappedStep<R>(s: State<R>, t: State<R>, n: nat, period: int)
    requires n == |s.log| * period + s.since && forall j :: 0 <= j < |s.log| ==> s.log[j].tick == (j + 1) * period
    requires t.since == n + 1 - LastFlush(t.log)
    requires (t.log == s.log && t.since == s.since + 1)
          || (s.since + 1 == period && t.since == 0 && |t.log| == |s.log| + 1 && s.log == t.log[..|s.log|])
    ensures n + 1 == |t.log| * period + t.since
    ensures forall j :: 0 <= j < |t.log| ==> t.log[j].tick == (j + 1) * period
  {
    if t.log != s.log {
      assert (|s.log| + 1) * period == |s.log| * period + period;
      forall j | 0 <= j < |s.log| ensures t.log[j].tick == (j + 1) * period {
        assert t.log[j] == s.log[j];
      }
    }
  }

  // ----- the cap and the configuration -----

  /** Every tick yields a report of each of n vessels, and at most one event of each. */
  ghost predicate FleetRun<R>(ticks: seq<Tick<R>>, n: nat) {
    forall i :: 0 <= i < |ticks| ==> FleetTick(ticks[i], n)
  }

  ghost predicate FleetTick<R>(tick: Tick<R>, n: nat) {
    |tick.steps| == n && OneEventEach(tick.steps)
  }

  /** Every run of such a fleet, from an empty batch, keeps to the cap. */
  ghost predicate CapSafe<R(!new)>(c: Config, n: nat, cap: int) {
    forall ticks: seq<Tick<R>> :: FleetRun(ticks, n) ==> Within(cap, Drive(c, [], ticks).log)
  }

  lemma TimesLater(w: int, a: int, b: int)
    requires 0 <= w && a <= b
    ensures w * a <= w * b
  {
  }

  lemma TickInPeriod<R>(c: Config, s: State<R>, tick: Tick<R>, w: nat, cap: int)
    requires c.tickSeconds > 0.0 && tick.steps != [] && 0 <= s.since < Period(c)
    requires |s.batch| <= w * s.since && |Rows(tick.steps)| <= w && w * Period(c) <= cap && Within(cap, s.log)
    ensures var t := DriveTick(c, s, tick); Within(cap, t.log) && |t.batch| <= w * t.since
  {
    YieldsAppend(s, tick.steps);
    RowsNonEmpty(tick.steps);
    SinceKept(s, tick.steps);
    assert w * (s.since + 1) == w * s.since + w;
    TimesLater(w, s.since + 1, Period(c));
  }

  /** As many rows as a period can bring fit below the cap: then every batch does. */
  lemma {:induction false} PeriodFits<R>(c: Config, ticks: seq<Tick<R>>, n: nat, cap: int)
    requires c.tickSeconds > 0.0 && n >= 1 && FleetRun(ticks, n) && 2 * n * Period(c) <= cap
    ensures var s := Drive(c, [], ticks); Within(cap, s.log) && |s.batch| <= 2 * n * s.since && 0 <= s.since < Period(c)
  {
    if ticks != [] {
      var last := |ticks| - 1;
      PeriodFits(c, ticks[..last], n, cap);
      RowsPerVessel(ticks[last].steps);
      assert FleetTick(ticks[last], n);
      assert forall i :: 0 <= i < |ticks| ==> FleetTick(ticks[i], n);
      SinceBelowPeriod(c, [], ticks);
      TickInPeriod(c, Drive(c, [], ticks[..last]), ticks[last], 2 * n, cap);
    }
  }

  // A run that breaks the cap: vessels with events in every tick.

  /** n vessels, each with an event, but for the first q of them. */
  function FleetSteps<R>(row: R, n: nat, q: nat): (steps: seq<Yield<R>>)
    ensures |steps| == n && OneEventEach(steps)
  {
    seq(n, i => Yield(row, if i < q then [] else [row]))
  }

  lemma {:induction false} FleetRows<R>(row: R, n: nat, q: nat)
    requires q <= n
    ensures |Rows(FleetSteps(row, n, q))| == 2 * n - q
  {
    if n > 0 {
      var m := if q < n then q else n - 1;
      FleetRows(row, n - 1, m);
      assert FleetSteps(row, n, q)[..n - 1] == FleetSteps(row, n - 1, m);
    }
  }

  function FleetTickOf<R>(row: R, n: nat, q: nat): Tick<R> {
    Tick(FleetSteps(row, n, q), Failed)
  }

  /** A tick that neither fills the batch nor ends the period only adds its rows. */
  lemma TickGathers<R>(c: Config, s: State<R>, tick: Tick<R>, cap: int)
    requires c.tickSeconds > 0.0 && c.maxSize == Some(cap) && 0 <= s.since
    requires |s.batch| + |Rows(tick.steps)| < cap && s.since + 1 < Period(c)
    ensures var t := DriveTick(c, s, tick);
            t.since == s.since + 1 && |t.batch| == |s.batch| + |Rows(tick.steps)| && t.log == s.log
  {
    YieldsAppend(s, tick.steps);
    SinceKept(s, tick.steps);
    ElapsedExactly(c, s.since + 1);
  }

  lemma TickOverflows<R>(c: Config, s: State<R>, tick: Tick<R>, cap: int)
    requires c.maxSize == Some(cap) && |s.batch| + |Rows(tick.steps)| > cap
    ensures !Within(cap, DriveTick(c, s, tick).log)
  {
    YieldsAppend(s, tick.steps);
    SinceKept(s, tick.steps);
    var d := Driven(s, tick.steps);
    var f := Flush(d.counts.ticks, d.batch, AnswerTo(c, tick.reply));
    assert DriveTick(c, s, tick).log == s.log + [f];
    assert f in s.log + [f];
  }

  function FullTicks<R>(row: R, n: nat, m: nat): (ticks: seq<Tick<R>>)
    ensures |ticks| == m && FleetRun(ticks, n)
  {
    seq(m, i => FleetTickOf(row, n, 0))
  }

  lemma {:induction false} FullTicksGather<R>(c: Config, row: R, n: nat, m: nat, cap: int)
    requires c.tickSeconds > 0.0 && c.maxSize == Some(cap) && 2 * n * m < cap && m < Period(c)
    ensures var s := Drive(c, [], FullTicks(row, n, m)); s.since == m && |s.batch| == 2 * n * m && s.log == []
  {
    if m > 0 {
      TimesLater(2 * n, m - 1, m);
      FullTicksGather(c, row, n, m - 1, cap);
      assert FullTicks(row, n, m)[..m - 1] == FullTicks(row, n, m - 1);
      FullTickMore(c, row, n, m, cap, Drive(c, [], FullTicks(row, n, m - 1)));
    }
  }

  lemma FullTickMore<R>(c: Config, row: R, n: nat, m: nat, cap: int, s: State<R>)
    requires c.tickSeconds > 0.0 && c.maxSize == Some(cap) && 0 < m && 2 * n * m < cap && m < Period(c)
    requires s.since == m - 1 && |s.batch| == 2 * n * (m - 1) && s.log == []
    ensures var t := DriveTick(c, s, FleetTickOf(row, n, 0)); t.since == m && |t.batch| == 2 * n * m && t.log == []
  {
    FleetRows(row, n, 0);
    assert 2 * n * m == 2 * n * (m - 1) + 2 * n;
    TickGathers(c, s, FleetTickOf(row, n, 0), cap);
  }

  lemma FleetRunSnoc<R>(ticks: seq<Tick<R>>, tick: Tick<R>, n: nat)
    requires FleetRun(ticks, n) && FleetTick(tick, n)
    ensures FleetRun(ticks + [tick], n)
  {
  }

  lemma DriveOneMore<R>(c: Config, carry: seq<R>, ticks: seq<Tick<R>>, tick: Tick<R>)
    ensures Drive(c, carry, ticks + [tick]) == DriveTick(c, Drive(c, carry, ticks), tick)
  {
    assert (ticks + [tick])[..|ticks|] == ticks;
  }

  /** One full tick on top of a batch that leaves no room for it. */
  lemma LastStraw<R(!new)>(c: Config, row: R, ticks: seq<Tick<R>>, n: nat, cap: int)
    requires c.maxSize == Some(cap) && FleetRun(ticks, n) && |Drive(c, [], ticks).batch| + 2 * n > cap
    ensures !CapSafe<R>(c, n, cap)
  {
    var tick := FleetTickOf(row, n, 0);
    FleetRows(row, n, 0);
    DriveOneMore(c, [], ticks, tick);
    TickOverflows(c, Drive(c, [], ticks), tick, cap);
    FleetRunSnoc(ticks, tick, n);
  }

  /** Full ticks up to just below the cap, when a multiple of their rows is the cap itself. */
  lemma ShortTickGathers<R>(c: Config, row: R, n: nat, m: nat, cap: int) returns (ticks: seq<Tick<R>>)
    requires c.tickSeconds > 0.0 && c.maxSize == Some(cap) && n >= 1 && 2 * n * m + 2 * n == cap && m + 1 < Period(c)
    ensures FleetRun(ticks, n) && |Drive(c, [], ticks).batch| == cap - 1
  {
    var full, tick := FullTicks(row, n, m), FleetTickOf(row, n, 1);
    FullTicksGather(c, row, n, m, cap);
    FleetRows(row, n, 1);
    TickGathers(c, Drive(c, [], full), tick, cap);
    DriveOneMore(c, [], full, tick);
    FleetRunSnoc(full, tick, n);
    ticks := full + [tick];
  }

  /** How many full ticks stay below the cap. */
  lemma FullTicksBelow(w: nat, cap: int, period: int) returns (m: nat)
    requires w >= 1 && cap >= 1 && cap < w * period
    ensures w * m < cap <= w * m + w && m < period && (w * m + w == cap ==> m + 1 < period)
  {
    m := (cap - 1) / w;
    assert w * m <= cap - 1 < w * m + w;
    assert w * (m + 1) == w * m + w;
    if m >= period { TimesLater(w, period, m); }
    if m + 1 >= period { TimesLater(w, period, m + 1); }
  }

  lemma PeriodOverflows<R(!new)>(c: Config, row: R, n: nat, cap: int)
    requires c.tickSeconds > 0.0 && c.maxSize == Some(cap) && n >= 1 && 2 * n * Period(c) > cap
    ensures !CapSafe<R>(c, n, cap)
  {
    if cap <= 0 {
      LastStraw(c, row, [], n, cap);
    } else {
      var m := FullTicksBelow(2 * n, cap, Period(c));
      if 2 * n * m + 2 * n > cap {
        FullTicksGather(c, row, n, m, cap);
        LastStraw(c, row, FullTicks(row, n, m), n, cap);
      } else {
        var ticks := ShortTickGathers(c, row, n, m, cap);
        LastStraw(c, row, ticks, n, cap);
      }
    }
  }

  /** With n vessels the cap is kept in every run exactly when it covers two rows of each in every tick of a period. */
  lemma CapSafeExactly<R(!new)>(c: Config, row: R, n: nat, cap: int)
    requires c.tickSeconds > 0.0 && c.maxSize == Some(cap) && n >= 1
    ensures CapSafe<R>(c, n, cap) <==> 2 * n * Period(c) <= cap
  {
    if 2 * n * Period(c) <= cap {
      forall ticks: seq<Tick<R>> | FleetRun(ticks, n) ensures Within(cap, Drive(c, [], ticks).log) {
        PeriodFits(c, ticks, n, cap);
      }
    } else {
      PeriodOverflows(c, row, n, cap);
    }
  }
}
