/**
 The offline replay protocol: a durable client queue drained in batches over a link that may lose,
 delay, repeat and reorder requests and lose replies, into a server that keeps each action id once.
 */
module Sync {
  type Id = nat

  const BATCH_SIZE := 25

  datatype Request = Request(attempt: nat, actions: seq<Id>)

  /** Where drainQueue stands: snapshot is the list it read, at the start of the next batch. */
  datatype Phase =
    | Idle
    | Draining(snapshot: seq<Id>, at: nat)
    | Awaiting(snapshot: seq<Id>, at: nat, request: Request)
    | Removing(snapshot: seq<Id>, at: nat, left: seq<Id>)

  /** history: every action ever enqueued; queue: those stored on the device; recorded: ids on the server. */
  datatype State = State(
    history: seq<Id>, queue: seq<Id>, recorded: seq<Id>, phase: Phase,
    wire: set<Request>, replies: set<Request>, attempts: nat)

  datatype Step =
    | Enqueue(id: Id)
    | Start
    | Send
    | Deliver(request: Request, abort: bool)  // abort: a batch with a duplicate has no effect and an error reply
    | GotReply
    | GotError
    | Remove
    | NextBatch
    | Finish
    | Crash

  function BatchEnd(snapshot: seq<Id>, at: nat): nat {
    if at + BATCH_SIZE < |snapshot| then at + BATCH_SIZE else |snapshot|
  }

  /** The batch slice(at, at + BATCH_SIZE). */
  function Batch(snapshot: seq<Id>, at: nat): seq<Id>
    requires at <= |snapshot|
  {
    snapshot[at..BatchEnd(snapshot, at)]
  }

  /** An id that is already recorded, or one that comes twice. */
  predicate HasDuplicate(recorded: seq<Id>, actions: seq<Id>) {
    (exists a :: a in actions && a in recorded) || !Distinct(actions)
  }

  predicate Distinct(s: seq<Id>) {
    forall i, j :: 0 <= i < j < |s| ==> s[i] != s[j]
  }

  function Ids<T>(idOf: T -> Id, items: seq<T>): (ids: seq<Id>)
    ensures |ids| == |items| && forall i :: 0 <= i < |items| ==> ids[i] == idOf(items[i])
  {
    seq(|items|, i requires 0 <= i < |items| => idOf(items[i]))
  }

  /** The unique index accepts an id once. */
  function Record(recorded: seq<Id>, actions: seq<Id>): seq<Id> {
    if actions == [] then recorded
    else
      var before := Record(recorded, actions[..|actions| - 1]);
      var a := actions[|actions| - 1];
      if a in before then before else before + [a]
  }

  function Drop(queue: seq<Id>, id: Id): seq<Id> {
    if queue == [] then []
    else if queue[0] == id then queue[1..]
    else [queue[0]] + Drop(queue[1..], id)
  }

  predicate Enabled(s: State, step: Step) {
    match step
    case Enqueue(id) => id !in s.history
    case Start => s.phase.Idle?
    case Send => s.phase.Draining? && s.phase.at < |s.phase.snapshot|
    case Deliver(r, _) => r in s.wire
    case GotReply => s.phase.Awaiting? && s.phase.request in s.replies
    case GotError => s.phase.Awaiting?
    case Remove => s.phase.Removing? && s.phase.left != []
    case NextBatch => s.phase.Removing? && s.phase.left == []
    case Finish => s.phase.Draining? && s.phase.at >= |s.phase.snapshot|
    case Crash => true
  }

  function Apply(s: State, step: Step): State
    requires Enabled(s, step)
  {
    match step
    case Enqueue(id) => s.(history := s.history + [id], queue := s.queue + [id])
    case Start => s.(phase := Draining(s.queue, 0))
    case Send =>
      var request := Request(s.attempts, Batch(s.phase.snapshot, s.phase.at));
      s.(phase := Awaiting(s.phase.snapshot, s.phase.at, request),
         wire := s.wire + {request}, attempts := s.attempts + 1)
    case Deliver(r, abort) =>
      if abort && HasDuplicate(s.recorded, r.actions) then s
      else s.(recorded := Record(s.recorded, r.actions), replies := s.replies + {r})
    case GotReply => s.(phase := Removing(s.phase.snapshot, s.phase.at, s.phase.request.actions))
    case GotError => s.(phase := Idle)
    case Remove => s.(queue := Drop(s.queue, s.phase.left[0]), phase := s.phase.(left := s.phase.left[1..]))
    case NextBatch => s.(phase := Draining(s.phase.snapshot, s.phase.at + BATCH_SIZE))
    case Finish => s.(phase := Idle)
    case Crash => s.(phase := Idle)
  }

  function Next(s: State, step: Step): State {
    if Enabled(s, step) then Apply(s, step) else s
  }

  function Run(s: State, steps: seq<Step>): State {
    if steps == [] then s else Next(Run(s, steps[..|steps| - 1]), steps[|steps| - 1])
  }

  const Initial := State([], [], [], Idle, {}, {}, 0)

  // ----- safety -----

  /** Number of actions the client has removed. */
  function Removed(s: State): int {
    |s.history| - |s.queue|
  }

  /** A request carries history[from..to], nothing of it beyond what was removed when it was sent. */
  ghost predicate Carries(s: State, r: Request, lo: nat, hi: nat) {
    && lo <= Removed(s) && lo < hi <= |s.history| && hi <= lo + BATCH_SIZE
    && r.actions == s.history[lo..hi]
    && r.attempt < s.attempts
    && (r in s.replies ==> hi <= |s.recorded|)
  }

  ghost predicate Known(s: State, r: Request) {
    exists lo: nat, hi: nat :: Carries(s, r, lo, hi)
  }

  /** The snapshot is a stretch of the history, and everything before the current batch is removed. */
  ghost predicate PhaseFits(s: State) {
    0 <= Removed(s) <= |s.history| &&
    match s.phase
    case Idle => true
    case Draining(snapshot, at) =>
      Stretch(s, snapshot, if at < |snapshot| then Removed(s) - at else Removed(s) - |snapshot|)
    case Awaiting(snapshot, at, r) =>
      && at < |snapshot| && Stretch(s, snapshot, Removed(s) - at)
      && r.actions == Batch(snapshot, at) && r in s.wire
    case Removing(snapshot, at, left) =>
      && at < |snapshot| && |left| <= BatchEnd(snapshot, at)
      && Stretch(s, snapshot, Removed(s) + |left| - BatchEnd(snapshot, at))
      && Removed(s) + |left| <= |s.recorded|
      && left == s.history[Removed(s)..Removed(s) + |left|]
  }

  ghost predicate Stretch(s: State, snapshot: seq<Id>, lo: int) {
    0 <= lo && lo + |snapshot| <= |s.history| && snapshot == s.history[lo..lo + |snapshot|]
  }

  ghost predicate Inv(s: State) {
    && Distinct(s.history)
    && |s.queue| <= |s.history| && s.queue == s.history[Removed(s)..]
    && |s.recorded| <= |s.history| && s.recorded == s.history[..|s.recorded|]
    && Removed(s) <= |s.recorded| <= Removed(s) + BATCH_SIZE
    && (forall r :: r in s.wire ==> Known(s, r))
    && s.replies <= s.wire
    && PhaseFits(s)
  }

  /** Recording a stretch that starts inside the recorded prefix extends the prefix to its end. */
  lemma {:induction false} RecordStretch(history: seq<Id>, n: nat, lo: nat, hi: nat)
    requires Distinct(history) && lo <= n <= |history| && lo <= hi <= |history|
    ensures Record(history[..n], history[lo..hi]) == history[..if n < hi then hi else n]
    decreases hi
  {
    if lo < hi {
      assert history[lo..hi][..hi - lo - 1] == history[lo..hi - 1];
      RecordStretch(history, n, lo, hi - 1);
      var m := if n < hi - 1 then hi - 1 else n;
      var a := history[hi - 1];
      if hi - 1 < m { assert history[..m][hi - 1] == a; }
      if a in history[..m] {
        var i :| 0 <= i < m && history[..m][i] == a;
        assert history[i] == history[hi - 1];
      }
      assert history[..hi] == history[..hi - 1] + [a];
    }
  }

  lemma DropHead(queue: seq<Id>, id: Id)
    requires queue != [] && queue[0] == id
    ensures Drop(queue, id) == queue[1..]
  {
  }

  /** Requests stay well described while the history grows and more is removed and recorded. */
  lemma KnownLater(s: State, t: State, r: Request)
    requires Known(s, r) && s.history <= t.history && Removed(s) <= Removed(t) && s.attempts <= t.attempts
    requires |s.recorded| <= |t.recorded| && (r in t.replies ==> r in s.replies)
    ensures Known(t, r)
  {
    var lo: nat, hi: nat :| Carries(s, r, lo, hi);
    assert t.history[lo..hi] == s.history[lo..hi];
    assert Carries(t, r, lo, hi);
  }

  lemma WireLater(s: State, t: State)
    requires Inv(s) && s.history <= t.history && Removed(s) <= Removed(t) && s.attempts <= t.attempts
    requires |s.recorded| <= |t.recorded| && t.replies <= s.replies
    ensures forall r :: r in s.wire ==> Known(t, r)
  {
    forall r | r in s.wire ensures Known(t, r) {
      assert Known(s, r);
      KnownLater(s, t, r);
    }
  }

  lemma PhaseGrows(s: State, t: State)
    requires PhaseFits(s) && t.phase == s.phase && t.wire == s.wire && s.history <= t.history
    requires 0 <= Removed(t) == Removed(s) <= |t.history| && |s.recorded| <= |t.recorded|
    ensures PhaseFits(t)
  {
    assert forall lo, hi :: 0 <= lo <= hi <= |s.history| ==> t.history[lo..hi] == s.history[lo..hi];
  }

  lemma DistinctGrows(s: seq<Id>, id: Id)
    requires Distinct(s) && id !in s
    ensures Distinct(s + [id])
  {
    forall i, j | 0 <= i < j < |s| + 1 ensures (s + [id])[i] != (s + [id])[j] {
      assert s[i] in s;
    }
  }

  lemma InvEnqueue(s: State, id: Id)
    requires Inv(s) && Enabled(s, Enqueue(id))
    ensures Inv(Apply(s, Enqueue(id)))
  {
    var t := Apply(s, Enqueue(id));
    DistinctGrows(s.history, id);
    WireLater(s, t);
    PhaseGrows(s, t);
  }

  /** The batch to be sent next is what comes after everything removed. */
  lemma NextBatchIsAhead(s: State)
    requires Inv(s) && Enabled(s, Send)
    ensures var batch := Batch(s.phase.snapshot, s.phase.at);
            Removed(s) + |batch| <= |s.history| && batch == s.history[Removed(s)..Removed(s) + |batch|]
  {
    var lo := Removed(s) - s.phase.at;
    SliceOfSlice(s.history, lo, |s.phase.snapshot|, s.phase.at, BatchEnd(s.phase.snapshot, s.phase.at));
  }

  lemma InvSend(s: State)
    requires Inv(s) && Enabled(s, Send)
    ensures Inv(Apply(s, Send))
  {
    var t := Apply(s, Send);
    var r := t.phase.request;
    WireLater(s, t);
    assert r in s.wire ==> Known(s, r);
    var lo := Removed(s);
    var hi := lo + |r.actions|;
    NextBatchIsAhead(s);
    assert Carries(t, r, lo, hi);
  }

  lemma InvDeliver(s: State, r: Request, abort: bool)
    requires Inv(s) && Enabled(s, Deliver(r, abort))
    ensures Inv(Apply(s, Deliver(r, abort)))
  {
    var t := Apply(s, Deliver(r, abort));
    assert Known(s, r);
    var lo: nat, hi: nat :| Carries(s, r, lo, hi);
    RecordStretch(s.history, |s.recorded|, lo, hi);
    PhaseGrows(s, t);
    forall q | q in t.wire ensures Known(t, q) {
      assert Known(s, q);
      if q == r && t != s { assert Carries(t, r, lo, hi); } else { KnownLater(s, t, q); }
    }
  }

  lemma SameStretch(history: seq<Id>, lo: nat, hi: nat, other: nat, end: nat)
    requires Distinct(history) && lo < hi <= |history| && other <= end <= |history|
    requires history[lo..hi] == history[other..end]
    ensures lo == other && hi == end
  {
    assert history[lo] == history[lo..hi][0] == history[other];
    assert |history[lo..hi]| == |history[other..end]|;
  }

  lemma RepliedIsRecorded(s: State, r: Request, at: nat)
    requires Inv(s) && r in s.replies && at + |r.actions| <= |s.history|
    requires r.actions == s.history[at..at + |r.actions|]
    ensures at + |r.actions| <= |s.recorded|
  {
    assert Known(s, r);
    var lo: nat, hi: nat :| Carries(s, r, lo, hi);
    SameStretch(s.history, lo, hi, at, at + |r.actions|);
  }

  /** The batch that a reply answers starts where removal stopped, and the server has all of it. */
  lemma AnsweredIsRecorded(s: State)
    requires Inv(s) && Enabled(s, GotReply)
    ensures var n := |s.phase.request.actions|;
            Removed(s) + n <= |s.recorded| && s.phase.request.actions == s.history[Removed(s)..Removed(s) + n]
  {
    var at := Removed(s);
    SliceOfSlice(s.history, at - s.phase.at, |s.phase.snapshot|, s.phase.at, BatchEnd(s.phase.snapshot, s.phase.at));
    RepliedIsRecorded(s, s.phase.request, at);
  }

  lemma ReplyFits(s: State)
    requires Inv(s) && Enabled(s, GotReply)
    ensures PhaseFits(Apply(s, GotReply))
  {
    AnsweredIsRecorded(s);
  }

  lemma SliceOfSlice(history: seq<Id>, lo: nat, n: nat, i: nat, j: nat)
    requires lo + n <= |history| && i <= j <= n
    ensures history[lo..lo + n][i..j] == history[lo + i..lo + j]
  {
    var inner, outer := history[lo..lo + n][i..j], history[lo + i..lo + j];
    forall k | 0 <= k < j - i ensures inner[k] == outer[k] {
    }
  }

  lemma InvGotReply(s: State)
    requires Inv(s) && Enabled(s, GotReply)
    ensures Inv(Apply(s, GotReply))
  {
    ReplyFits(s);
    WireLater(s, Apply(s, GotReply));
  }

  lemma InvRemove(s: State)
    requires Inv(s) && Enabled(s, Remove)
    ensures Inv(Apply(s, Remove))
  {
    var t := Apply(s, Remove);
    assert s.queue[0] == s.history[Removed(s)] == s.phase.left[0];
    DropHead(s.queue, s.phase.left[0]);
    WireLater(s, t);
  }

  lemma InvStart(s: State)
    requires Inv(s) && Enabled(s, Start)
    ensures Inv(Apply(s, Start))
  {
    WireLater(s, Apply(s, Start));
  }

  lemma InvNextBatch(s: State)
    requires Inv(s) && Enabled(s, NextBatch)
    ensures Inv(Apply(s, NextBatch))
  {
    WireLater(s, Apply(s, NextBatch));
  }

  lemma InvIdle(s: State, step: Step)
    requires Inv(s) && Enabled(s, step)
    requires step.GotError? || step.Finish? || step.Crash?
    ensures Inv(Apply(s, step))
  {
    WireLater(s, Apply(s, step));
  }

  lemma InvNext(s: State, step: Step)
    requires Inv(s)
    ensures Inv(Next(s, step))
  {
    if Enabled(s, step) {
      match step
      case Enqueue(id) => InvEnqueue(s, id);
      case Send => InvSend(s);
      case Deliver(r, abort) => InvDeliver(s, r, abort);
      case GotReply => InvGotReply(s);
      case Remove => InvRemove(s);
      case Start => InvStart(s);
      case NextBatch => InvNextBatch(s);
      case _ => InvIdle(s, step);
    }
  }

  lemma {:induction false} HistoryGrows(s: State, steps: seq<Step>)
    ensures s.history <= Run(s, steps).history
  {
    if steps != [] { HistoryGrows(s, steps[..|steps| - 1]); }
  }

  /** A drain that has come to the end of its snapshot leaves only what was enqueued since it began. */
  lemma DrainedAll(s: State, t: State)
    requires Inv(s) && Inv(t) && s.history <= t.history && s.queue != []
    requires t.phase.Draining? && t.phase.snapshot == s.queue && t.phase.at >= |s.queue|
    ensures t.queue == t.history[|s.history|..]
  {
    var lo, other := Removed(s), Removed(t) - |s.queue|;
    assert t.history[lo..|s.history|] == s.queue == t.history[other..other + |s.queue|];
    SameStretch(t.history, lo, |s.history|, other, other + |s.queue|);
  }

  /** What a state of the protocol guarantees to device and server. */
  ghost predicate Consistent(s: State) {
    && Distinct(s.recorded)
    && s.recorded <= s.history
    && |s.queue| <= |s.history| && s.queue == s.history[|s.history| - |s.queue|..]
    && |s.history| <= |s.recorded| + |s.queue|
    && |s.recorded| <= |s.history| - |s.queue| + 25
  }

  lemma DistinctPrefix(s: seq<Id>, n: nat)
    requires Distinct(s) && n <= |s|
    ensures Distinct(s[..n])
  {
  }

  lemma {:induction false} InvFrom(s: State, steps: seq<Step>)
    requires Inv(s)
    ensures Inv(Run(s, steps))
  {
    if steps != [] {
      InvFrom(s, steps[..|steps| - 1]);
      InvNext(Run(s, steps[..|steps| - 1]), steps[|steps| - 1]);
    }
  }

  /**
   However replies are lost and requests delayed, repeated or reordered, and whether a batch with a
   duplicate is trimmed or refused: the server records each action once, in enqueue order and as a
   prefix of the history; the device holds a suffix; nothing is in neither; and the server is at most
   one batch ahead of what the device has removed.
   */
  lemma AtMostOnce(steps: seq<Step>)
    ensures Consistent(Run(Initial, steps))
  {
    InvFrom(Initial, steps);
    DistinctPrefix(Run(Initial, steps).history, |Run(Initial, steps).recorded|);
  }

  // ----- progress -----

  lemma RunSnoc(s: State, steps: seq<Step>, step: Step)
    ensures Run(s, steps + [step]) == Next(Run(s, steps), step)
  {
    assert (steps + [step])[..|steps|] == steps;
  }

  lemma {:induction false} RunCons(s: State, step: Step, steps: seq<Step>)
    ensures Run(s, [step] + steps) == Run(Next(s, step), steps)
  {
    if steps == [] {
      RunSnoc(s, [], step);
      assert [] + [step] == [step] + steps;
    } else {
      var last := |steps| - 1;
      RunCons(s, step, steps[..last]);
      assert ([step] + steps)[..last + 1] == [step] + steps[..last];
    }
  }

  lemma RunAppend(s: State, a: seq<Step>, b: seq<Step>)
    ensures Run(s, a + b) == Run(Run(s, a), b)
    decreases |b|
  {
    if b == [] {
      assert a + b == a;
    } else {
      RunAppend(s, a, b[..|b| - 1]);
      assert (a + b)[..|a + b| - 1] == a + b[..|b| - 1];
    }
  }

  /** Every delivery in the run refuses batches that contain a duplicate. */
  predicate Refusing(steps: seq<Step>) {
    forall i :: 0 <= i < |steps| && steps[i].Deliver? ==> steps[i].abort
  }

  /** The server holds an action the device still queues, and no reply to attempts from base on can exist. */
  ghost predicate Jammed(s: State, base: nat) {
    && Inv(s) && Removed(s) < |s.recorded| && base <= s.attempts
    && (forall r :: r in s.replies ==> r.attempt < base)
    && !s.phase.Removing? && (s.phase.Awaiting? ==> base <= s.phase.request.attempt)
  }

  lemma JammedNext(s: State, step: Step, base: nat)
    requires Jammed(s, base) && (step.Deliver? ==> step.abort)
    ensures var t := Next(s, step); Jammed(t, base) && t.recorded == s.recorded && Removed(t) == Removed(s)
  {
    InvNext(s, step);
    if step.Deliver? && Enabled(s, step) {
      assert Known(s, step.request);
      var lo: nat, hi: nat :| Carries(s, step.request, lo, hi);
      var a := step.request.actions[0];
      assert a in step.request.actions && a == s.history[lo] == s.recorded[lo] && a in s.recorded;
      assert HasDuplicate(s.recorded, step.request.actions);
    }
  }

  lemma {:induction false} JammedRun(s: State, steps: seq<Step>, base: nat)
    requires Jammed(s, base) && Refusing(steps)
    ensures var t := Run(s, steps); Jammed(t, base) && t.recorded == s.recorded && Removed(t) == Removed(s)
  {
    if steps != [] {
      var last := |steps| - 1;
      JammedRun(s, steps[..last], base);
      JammedNext(Run(s, steps[..last]), steps[last], base);
    }
  }

  lemma NoDuplicateAhead(s: State)
    requires Inv(s) && |s.recorded| == Removed(s)
    ensures !HasDuplicate(s.recorded, Batch(s.queue, 0))
  {
    var batch := Batch(s.queue, 0);
    forall i | 0 <= i < |batch| ensures batch[i] !in s.recorded {
      assert batch[i] == s.history[Removed(s) + i];
      assert forall j :: 0 <= j < |s.recorded| ==> s.recorded[j] == s.history[j];
    }
  }

  lemma RunThree(s: State, a: Step, b: Step, c: Step)
    ensures Run(s, [a, b, c]) == Next(Next(Next(s, a), b), c)
  {
    RunSnoc(s, [], a);
    RunSnoc(s, [a], b);
    RunSnoc(s, [a, b], c);
    assert [] + [a] == [a] && [a] + [b] == [a, b] && [a, b] + [c] == [a, b, c];
  }

  /** Every server along the way drops duplicates alone. */
  ghost predicate Trimming(steps: seq<Step>) {
    forall i :: 0 <= i < |steps| && steps[i].Deliver? ==> !steps[i].abort
  }

  /** Sending one batch over a working link, up to its reply. */
  lemma ToReply(s: State, abort: bool) returns (steps: seq<Step>)
    requires s.phase.Draining? && s.phase.at < |s.phase.snapshot|
    requires abort ==> !HasDuplicate(s.recorded, Batch(s.phase.snapshot, s.phase.at))
    ensures if abort then Refusing(steps) else Trimming(steps)
    ensures var t := Run(s, steps);
            && t.phase == Removing(s.phase.snapshot, s.phase.at, Batch(s.phase.snapshot, s.phase.at))
            && t.queue == s.queue && t.history == s.history
  {
    var r := Request(s.attempts, Batch(s.phase.snapshot, s.phase.at));
    steps := [Send, Deliver(r, abort), GotReply];
    RunThree(s, Send, Deliver(r, abort), GotReply);
  }

  /** A drain with a working link, as far as removing the first action. */
  lemma FirstRemoval(s: State) returns (steps: seq<Step>)
    requires Inv(s) && s.phase.Idle? && s.queue != [] && |s.recorded| == Removed(s)
    ensures Refusing(steps) && Removed(Run(s, steps)) == Removed(s) + 1
  {
    NoDuplicateAhead(s);
    InvNext(s, Start);
    var reply := ToReply(Next(s, Start), true);
    InvFrom(Next(s, Start), reply);
    var t := Run(Next(s, Start), reply);
    assert t.queue[0] == t.phase.left[0];
    DropHead(t.queue, t.queue[0]);
    RunSnoc(Next(s, Start), reply, Remove);
    RunCons(s, Start, reply + [Remove]);
    steps := [Start] + (reply + [Remove]);
  }

  /**
   A server that refuses whole batches can take in another action from an idle device exactly when it
   is not ahead of it. One reply lost after the server committed blocks the queue for good.
   */
  lemma RefusingProgress(s: State)
    requires Inv(s) && s.phase.Idle? && s.queue != []
    ensures (exists steps :: Refusing(steps) && Removed(s) < Removed(Run(s, steps))) <==> |s.recorded| == Removed(s)
  {
    if |s.recorded| == Removed(s) {
      var steps := FirstRemoval(s);
    } else {
      forall r | r in s.replies ensures r.attempt < s.attempts { assert Known(s, r); }
      forall steps | Refusing(steps) ensures Removed(Run(s, steps)) == Removed(s) {
        JammedRun(s, steps, s.attempts);
      }
    }
  }

  /** The shortest way there: one action, delivered and recorded, its reply lost. */
  lemma OneLostReplyJams()
    ensures var s := Run(Initial, [Enqueue(0), Start, Send, Deliver(Request(0, [0]), true), GotError]);
            s.phase.Idle? && s.queue == [0] && s.recorded == [0]
  {
    var a, b, c, d, e := Enqueue(0), Start, Send, Deliver(Request(0, [0]), true), GotError;
    RunThree(Initial, a, b, c);
    RunSnoc(Initial, [a, b, c], d);
    RunSnoc(Initial, [a, b, c, d], e);
    assert [a, b, c] + [d] == [a, b, c, d] && [a, b, c, d] + [e] == [a, b, c, d, e];
    OneLostReply();
  }

  lemma OneSent()
    ensures Next(Next(Next(Initial, Enqueue(0)), Start), Send)
         == State([0], [0], [], Awaiting([0], 0, Request(0, [0])), {Request(0, [0])}, {}, 1)
  {
    var s := Next(Next(Initial, Enqueue(0)), Start);
    assert s.history == [0] && s.queue == [0] && s.phase == Draining([0], 0);
    assert Batch([0], 0) == [0];
  }

  lemma OneLostReply()
    ensures var s := Next(Next(Next(Initial, Enqueue(0)), Start), Send);
            var t := Next(Next(s, Deliver(Request(0, [0]), true)), GotError);
            t.phase.Idle? && t.queue == [0] && t.recorded == [0]
  {
    OneSent();
    assert Record([], [0]) == [0];
    assert !HasDuplicate([], [0]);
  }

  lemma AfterDrain(s: State, more: seq<Step>)
    requires Inv(s) && s.phase.Idle?
    requires var u := Run(Next(s, Start), more).phase; u.Draining? && u.snapshot == s.queue && |s.queue| <= u.at
    requires s.queue == [] ==> more == []
    ensures var u := Run(Next(s, Start), more); s.history <= u.history && u.queue == u.history[|s.history|..]
  {
    InvNext(s, Start);
    InvFrom(Next(s, Start), more);
    HistoryGrows(Next(s, Start), more);
    if s.queue != [] { DrainedAll(s, Run(Next(s, Start), more)); }
  }

  /** Removing what is left of an acknowledged batch. */
  lemma {:induction false} RemoveRest(s: State) returns (steps: seq<Step>)
    requires Inv(s) && s.phase.Removing?
    ensures var t := Run(s, steps);
            && Inv(t) && t.phase == Draining(s.phase.snapshot, s.phase.at + BATCH_SIZE)
            && t.history == s.history && Removed(t) == Removed(s) + |s.phase.left|
    ensures Trimming(steps)
    decreases |s.phase.left|
  {
    if s.phase.left == [] {
      InvNext(s, NextBatch);
      RunSnoc(s, [], NextBatch);
      assert [] + [NextBatch] == [NextBatch];
      steps := [NextBatch];
    } else {
      InvNext(s, Remove);
      assert s.queue[0] == s.history[Removed(s)] == s.phase.left[0];
      DropHead(s.queue, s.phase.left[0]);
      var rest := RemoveRest(Next(s, Remove));
      RunCons(s, Remove, rest);
      steps := [Remove] + rest;
    }
  }

  /** From the start of a batch, a working link and a server that trims duplicates finish the drain. */
  lemma {:induction false} DrainRest(s: State) returns (steps: seq<Step>)
    requires Inv(s) && s.phase.Draining?
             && (s.phase.at < |s.phase.snapshot| ==> Removed(s) - s.phase.at + |s.phase.snapshot| == |s.history|)
    requires s.phase.at >= |s.phase.snapshot| ==> s.queue == []
    ensures var t := Run(s, steps); t.phase.Idle? && t.queue == [] && t.history == s.history
    ensures Trimming(steps)
    decreases if s.phase.at < |s.phase.snapshot| then |s.phase.snapshot| - s.phase.at else 0
  {
    if s.phase.at >= |s.phase.snapshot| {
      RunSnoc(s, [], Finish);
      assert [] + [Finish] == [Finish];
      steps := [Finish];
    } else {
      var reply := ToReply(s, false);
      InvFrom(s, reply);
      var t := Run(s, reply);
      var removing := RemoveRest(t);
      RunAppend(s, reply, removing);
      var u := Run(t, removing);
      var rest := DrainRest(u);
      RunAppend(s, reply + removing, rest);
      steps := reply + removing + rest;
    }
  }

  /** From any moment on, with a server that trims duplicates, the device can empty its queue into a complete
     record, if need be after a restart, whatever was lost before. */
  lemma TrimmingDrains(s: State) returns (steps: seq<Step>)
    requires Inv(s)
    ensures Trimming(steps)
    ensures var t := Run(s, steps); t.phase.Idle? && t.queue == [] && t.history == s.history && t.recorded == s.history
  {
    if s.phase.Idle? {
      steps := IdleDrains(s);
    } else {
      InvNext(s, Crash);
      var rest := IdleDrains(Next(s, Crash));
      RunCons(s, Crash, rest);
      steps := [Crash] + rest;
    }
  }

  lemma IdleDrains(s: State) returns (steps: seq<Step>)
    requires Inv(s) && s.phase.Idle?
    ensures Trimming(steps)
    ensures var t := Run(s, steps); t.phase.Idle? && t.queue == [] && t.history == s.history && t.recorded == s.history
  {
    var s1 := Next(s, Start);
    InvNext(s, Start);
    var rest := DrainRest(s1);
    RunCons(s, Start, rest);
    steps := [Start] + rest;
    InvFrom(s, steps);
  }
}
