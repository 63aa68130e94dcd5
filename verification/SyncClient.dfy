/**
 The device side as it runs: the stored action queue and the drain loop. Whatever happens while the
 loop awaits (new actions, deliveries of any request ever sent) is an input, and every drain is
 shown to be a run of the replay protocol.
 */
module SyncClient {
  import opened Sync

  datatype Entry = Entry(id: Id, createdAt: int, failed: bool, attemptedAt: int)

  function EntryId(e: Entry): Id {
    e.id
  }

  function EntryIds(entries: seq<Entry>): seq<Id> {
    Ids(EntryId, entries)
  }

  /** What others may do while the drain waits. */
  datatype Event = Enqueued | Delivered(request: Request, abort: bool)

  /** How a drain ended; Broken names the batch that failed. */
  datatype Outcome = NotStarted | Drained | Broken(batch: nat)

  /** Entries are left as they were, or removed, and those added since then have not failed. */
  ghost predicate Kept(before: seq<Entry>, after: seq<Entry>, since: int) {
    forall e {:trigger Stays(before, e, since)} :: e in after ==> Stays(before, e, since)
  }

  ghost predicate Stays(before: seq<Entry>, e: Entry, since: int) {
    e in before || (!e.failed && e.createdAt >= since)
  }

  lemma KeptTwice(a: seq<Entry>, b: seq<Entry>, c: seq<Entry>, since: int, later: int)
    requires Kept(a, b, since) && Kept(b, c, later) && since <= later
    ensures Kept(a, c, since)
  {
    forall e | e in c ensures Stays(a, e, since) {
      assert Stays(b, e, later);
      if e in b { assert Stays(a, e, since); }
    }
  }

  /** The entry is the first with its id. */
  ghost predicate FirstOf(entries: seq<Entry>, i: nat)
    requires i < |entries|
  {
    forall k :: 0 <= k < i ==> entries[k].id != entries[i].id
  }

  /** The first entry of each of the ids is marked as failed at a moment since then; the others are as they were. */
  ghost predicate Marked(before: seq<Entry>, after: seq<Entry>, ids: seq<Id>, since: int) {
    && |after| == |before|
    && forall i :: 0 <= i < |after| ==>
         if before[i].id in ids && FirstOf(before, i)
         then after[i] == before[i].(failed := true, attemptedAt := after[i].attemptedAt)
              && since <= after[i].attemptedAt
         else after[i] == before[i]
  }

  /** What is still queued of a batch given up is marked as failed since then; all else is kept. */
  ghost predicate GaveUp(before: seq<Entry>, after: seq<Entry>, batch: seq<Id>, since: int) {
    forall e {:trigger GivenUp(before, e, batch, since)} :: e in after ==> GivenUp(before, e, batch, since)
  }

  ghost predicate GivenUp(before: seq<Entry>, e: Entry, batch: seq<Id>, since: int) {
    if e.id in batch then e.failed && e.attemptedAt >= since else Stays(before, e, since)
  }

  lemma GaveUpSince(start: seq<Entry>, before: seq<Entry>, after: seq<Entry>, ids: seq<Id>, start': int, since: int)
    requires Kept(start, before, start') && GaveUp(before, after, ids, since) && start' <= since
    ensures GaveUp(start, after, ids, start')
  {
    forall e | e in after ensures GivenUp(start, e, ids, start') {
      assert GivenUp(before, e, ids, since);
      if e in before { assert Stays(start, e, start'); }
    }
  }

  lemma MarkedGaveUp(start: seq<Entry>, before: seq<Entry>, after: seq<Entry>, ids: seq<Id>, start': int, since: int)
    requires Kept(start, before, start') && Marked(before, after, ids, since) && start' <= since
    requires Distinct(EntryIds(after))
    ensures GaveUp(start, after, ids, start')
  {
    forall e | e in after ensures GivenUp(start, e, ids, start') {
      var i :| 0 <= i < |after| && after[i] == e;
      forall k | 0 <= k < i ensures before[k].id != before[i].id {
        assert EntryIds(after)[k] != EntryIds(after)[i];
      }
      assert FirstOf(before, i) && before[i] in before && Stays(start, before[i], start');
    }
  }

  lemma StaysDistinct(s: State, steps: seq<Step>)
    requires Inv(s)
    ensures Distinct(Run(s, steps).queue)
  {
    InvFrom(s, steps);
  }

  ghost predicate InOrder(entries: seq<Entry>, clock: int) {
    && (forall i, j :: 0 <= i < j < |entries| ==> entries[i].createdAt < entries[j].createdAt)
    && (forall i :: 0 <= i < |entries| ==> entries[i].createdAt < clock)
  }

  class System {
    // the device
    var entries: seq<Entry>
    var clock: int
    var nextId: Id
    var syncing: bool
    // the link and the server
    var wire: set<Request>
    var replies: set<Request>
    var attempts: nat
    var recorded: seq<Id>
    // what the protocol keeps track of
    ghost var history: seq<Id>
    ghost var phase: Phase

    ghost function View(): State
      reads this
    {
      State(history, EntryIds(entries), recorded, phase, wire, replies, attempts)
    }

    /** The created_at index lists entries in the order they were put; action ids are not reused. */
    ghost predicate Valid()
      reads this
    {
      && (forall i :: 0 <= i < |history| ==> history[i] < nextId)
      && InOrder(entries, clock)
    }

    constructor ()
      ensures Valid() && View() == Initial && !syncing
    {
      entries, clock, nextId, syncing, wire, replies, attempts, recorded := [], 0, 0, false, {}, {}, 0, [];
      history, phase := [], Idle;
    }

    method EnqueueAction() returns (id: Id)
      requires Valid()
      modifies `entries, `clock, `nextId, `history
      ensures Valid() && Enabled(old(View()), Enqueue(id)) && View() == Apply(old(View()), Enqueue(id))
      ensures Kept(old(entries), entries, old(clock)) && old(clock) <= clock
    {
      id := nextId;
      nextId := nextId + 1;
      entries := entries + [Entry(id, clock, false, 0)];
      clock := clock + 1;
      history := history + [id];
    }

    method GetPendingActions() returns (pending: seq<Entry>)
      ensures pending == entries
    {
      pending := entries;
    }

    /** The place of the first entry with this id, or the number of entries. */
    method FindEntry(id: Id) returns (i: nat)
      ensures i <= |entries| && (i < |entries| ==> entries[i].id == id)
      ensures forall k :: 0 <= k < i ==> entries[k].id != id
    {
      i := 0;
      while i < |entries| && entries[i].id != id
        invariant 0 <= i <= |entries|
        invariant forall k :: 0 <= k < i ==> entries[k].id != id
      {
        i := i + 1;
      }
    }

    method MarkAction(id: Id)
      requires Valid()
      modifies `entries, `clock
      ensures Valid() && View() == old(View()) && clock == old(clock) + 1
      ensures forall i :: 0 <= i < |entries| ==>
        entries[i] == if exists k :: 0 <= k < i && old(entries)[k].id == id then old(entries)[i]
                      else if old(entries)[i].id == id then old(entries)[i].(failed := true, attemptedAt := old(clock))
                      else old(entries)[i]
    {
      var i := FindEntry(id);
      if i < |entries| {
        entries := entries[i := entries[i].(failed := true, attemptedAt := clock)];
      }
      clock := clock + 1;
    }

    lemma {:induction false} DropAt(ids: seq<Id>, i: nat, id: Id)
      requires i <= |ids| && (i < |ids| ==> ids[i] == id) && forall k :: 0 <= k < i ==> ids[k] != id
      ensures Drop(ids, id) == if i < |ids| then ids[..i] + ids[i + 1..] else ids
    {
      if i > 0 {
        DropAt(ids[1..], i - 1, id);
        assert ids == [ids[0]] + ids[1..];
        if i < |ids| { assert ids[..i] + ids[i + 1..] == [ids[0]] + (ids[1..][..i - 1] + ids[1..][i..]); }
      }
    }

    lemma EntriesWithout(es: seq<Entry>, i: nat)
      requires i < |es|
      ensures EntryIds(es[..i] + es[i + 1..]) == EntryIds(es)[..i] + EntryIds(es)[i + 1..]
    {
    }

    lemma WithoutInOrder(es: seq<Entry>, i: nat, clock: int)
      requires i < |es| && InOrder(es, clock)
      ensures InOrder(es[..i] + es[i + 1..], clock)
    {
      var without := es[..i] + es[i + 1..];
      assert forall k :: 0 <= k < |without| ==> without[k] == es[if k < i then k else k + 1];
    }

    lemma WithoutKept(es: seq<Entry>, i: nat, since: int)
      requires i < |es|
      ensures Kept(es, es[..i] + es[i + 1..], since)
    {
      forall e | e in es[..i] + es[i + 1..] ensures Stays(es, e, since) {
        assert es == es[..i] + [es[i]] + es[i + 1..];
      }
    }

    lemma AllKept(es: seq<Entry>, since: int)
      ensures Kept(es, es, since)
    {
      forall e | e in es ensures Stays(es, e, since) {
      }
    }

    method RemoveAction(id: Id)
      requires Valid()
      modifies `entries
      ensures Valid() && View() == old(View()).(queue := Drop(EntryIds(old(entries)), id))
      ensures Kept(old(entries), entries, clock)
    {
      var i := FindEntry(id);
      DropAt(EntryIds(entries), i, id);
      AllKept(entries, clock);
      if i < |entries| {
        EntriesWithout(entries, i);
        WithoutInOrder(entries, i, clock);
        WithoutKept(entries, i, clock);
        entries := entries[..i] + entries[i + 1..];
      }
    }

    /** Others act while the drain awaits; a delivery of something never sent does not happen. */
    method Others(events: seq<Event>) returns (ghost steps: seq<Step>)
      requires Valid()
      modifies `entries, `clock, `nextId, `history, `recorded, `replies
      ensures Valid() && View() == Run(old(View()), steps)
      ensures Kept(old(entries), entries, old(clock)) && old(clock) <= clock
    {
      steps := [];
      for i := 0 to |events|
        invariant Valid() && View() == Run(old(View()), steps)
        invariant Kept(old(entries), entries, old(clock)) && old(clock) <= clock
        invariant phase == old(phase) && wire == old(wire) && attempts == old(attempts)
      {
        ghost var before, since := entries, clock;
        match events[i]
        case Enqueued =>
          var id := EnqueueAction();
          KeptTwice(old(entries), before, entries, old(clock), since);
          RunSnoc(old(View()), steps, Enqueue(id));
          steps := steps + [Enqueue(id)];
        case Delivered(r, abort) =>
          RunSnoc(old(View()), steps, Deliver(r, abort));
          steps := steps + [Deliver(r, abort)];
          if r in wire && !(abort && HasDuplicate(recorded, r.actions)) {
            recorded := Record(recorded, r.actions);
            replies := replies + {r};
          }
      }
    }

    /** Removes the next acknowledged action, after which others may act. */
    method RemoveNext(id: Id, events: seq<Event>) returns (ghost steps: seq<Step>)
      requires Valid() && phase.Removing? && phase.left != [] && phase.left[0] == id
      modifies `entries, `clock, `nextId, `history, `recorded, `replies, `phase
      ensures Valid() && View() == Run(old(View()), steps)
      ensures phase == old(phase).(left := old(phase).left[1..])
      ensures Kept(old(entries), entries, old(clock)) && old(clock) <= clock
    {
      RemoveAction(id);
      phase := phase.(left := phase.left[1..]);
      assert View() == Next(old(View()), Remove);
      ghost var before := entries;
      ghost var more := Others(events);
      KeptTwice(old(entries), before, entries, old(clock), old(clock));
      RunCons(old(View()), Remove, more);
      steps := [Remove] + more;
    }

    /** Removes an acknowledged batch action by action, others acting in between. */
    method RemoveBatch(batch: seq<Entry>, others: nat -> seq<Event>) returns (ghost steps: seq<Step>)
      requires Valid() && phase.Removing? && phase.left == EntryIds(batch)
      modifies `entries, `clock, `nextId, `history, `recorded, `replies, `phase
      ensures Valid() && View() == Run(old(View()), steps)
      ensures phase == Draining(old(phase).snapshot, old(phase).at + BATCH_SIZE)
      ensures Kept(old(entries), entries, old(clock)) && old(clock) <= clock
    {
      steps := [];
      for i := 0 to |batch|
        invariant Valid() && View() == Run(old(View()), steps)
        invariant Kept(old(entries), entries, old(clock)) && old(clock) <= clock
        invariant phase == old(phase).(left := EntryIds(batch)[i..])
      {
        ghost var before, since := entries, clock;
        ghost var more := RemoveNext(batch[i].id, others(i));
        KeptTwice(old(entries), before, entries, old(clock), since);
        RunAppend(old(View()), steps, more);
        steps := steps + more;
      }
      RunSnoc(old(View()), steps, NextBatch);
      steps := steps + [NextBatch];
      phase := Draining(phase.snapshot, phase.at + BATCH_SIZE);
    }

    /** Sends a batch and waits while others act. */
    method Post(request: Request, events: seq<Event>) returns (ghost steps: seq<Step>)
      requires Valid() && phase.Draining? && phase.at < |phase.snapshot|
      requires request == Request(attempts, Batch(phase.snapshot, phase.at))
      modifies `entries, `clock, `nextId, `history, `recorded, `replies, `phase, `wire, `attempts
      ensures Valid() && View() == Run(old(View()), steps)
      ensures phase == Awaiting(old(phase).snapshot, old(phase).at, request) && attempts == old(attempts) + 1
      ensures Kept(old(entries), entries, old(clock)) && old(clock) <= clock
    {
      wire, attempts := wire + {request}, attempts + 1;
      phase := Awaiting(phase.snapshot, phase.at, request);
      assert View() == Next(old(View()), Send);
      ghost var more := Others(events);
      RunCons(old(View()), Send, more);
      steps := [Send] + more;
    }

    /** A failed batch is marked entry by entry and stays queued. */
    method MarkBatch(batch: seq<Entry>)
      requires Valid()
      modifies `entries, `clock
      ensures Valid() && View() == old(View()) && old(clock) <= clock
      ensures Marked(old(entries), entries, EntryIds(batch), old(clock))
    {
      ghost var ids := EntryIds(batch);
      for i := 0 to |batch|
        invariant Valid() && View() == old(View()) && old(clock) <= clock
        invariant Marked(old(entries), entries, ids[..i], old(clock))
      {
        MarkAction(batch[i].id);
        assert ids[..i + 1] == ids[..i] + [batch[i].id];
      }
      assert ids[..|batch|] == ids;
    }

    /** Batch b of a snapshot, sent as attempt base + b, was not answered or its answer not seen. */
    ghost predicate Unanswered(snapshot: seq<Id>, base: nat, b: nat, seen: bool)
      reads this
    {
      BATCH_SIZE * b < |snapshot| && !(seen && Request(base + b, Batch(snapshot, BATCH_SIZE * b)) in replies)
    }

    /** The batch loop of a drain. */
    method DrainBatches(pending: seq<Entry>, others: (nat, nat) -> seq<Event>, seen: nat -> bool)
      returns (broken: bool, b: nat, ghost steps: seq<Step>)
      requires Valid() && phase == Draining(EntryIds(pending), 0)
      modifies `entries, `clock, `nextId, `history, `recorded, `replies, `phase, `wire, `attempts
      ensures Valid() && View() == Run(old(View()), steps)
      ensures broken ==> phase.Idle? && Unanswered(EntryIds(pending), old(attempts), b, seen(b))
      ensures !broken ==> phase.Draining? && phase.snapshot == EntryIds(pending) && |pending| <= phase.at
      ensures !broken && pending == [] ==> steps == []
      ensures !broken ==> Kept(old(entries), entries, old(clock))
      ensures broken && Distinct(EntryIds(entries))
        ==> GaveUp(old(entries), entries, Batch(EntryIds(pending), BATCH_SIZE * b), old(clock))
    {
      steps := [];
      broken, b := false, 0;
      var i := 0;
      while i < |pending|
        invariant Valid() && View() == Run(old(View()), steps)
        invariant phase == Draining(EntryIds(pending), i) && i == BATCH_SIZE * b && attempts == old(attempts) + b
        invariant pending == [] ==> steps == []
        invariant Kept(old(entries), entries, old(clock)) && old(clock) <= clock
      {
        ghost var more;
        ghost var before, since := entries, clock;
        broken, more := DrainBatch(pending, i, (k: nat) => others(b, k), seen(b));
        RunAppend(old(View()), steps, more);
        steps := steps + more;
        if !broken {
          KeptTwice(old(entries), before, entries, old(clock), since);
        } else {
          if Distinct(EntryIds(entries)) {
            GaveUpSince(old(entries), before, entries, Batch(EntryIds(pending), i), old(clock), since);
          }
          return;
        }
        i, b := i + BATCH_SIZE, b + 1;
      }
    }

    /**
     Drains the queue. signedIn: an access token is present; others(b, k): what happens at the k-th wait
     of batch b, the 0-th being the wait for the reply; seen(b): whether a reply to batch b comes through.
     The drain is a run of the protocol; it ends Drained, with only actions enqueued meanwhile left, or at
     the first batch whose reply was not given or not seen.
     */
    method DrainQueue(signedIn: bool, others: (nat, nat) -> seq<Event>, seen: nat -> bool)
      returns (outcome: Outcome, ghost steps: seq<Step>)
      requires Valid() && Inv(View()) && (syncing || phase.Idle?)
      modifies this
      ensures Valid() && View() == Run(old(View()), steps)
      ensures syncing == old(syncing) && (syncing || phase.Idle?)
      ensures outcome == NotStarted <==> old(syncing) || !signedIn
      ensures outcome == NotStarted ==> View() == old(View())
      ensures outcome == Drained ==> old(history) <= history && View().queue == history[|old(history)|..]
      ensures outcome.Broken? ==> Unanswered(EntryIds(old(entries)), old(attempts), outcome.batch, seen(outcome.batch))
      ensures !outcome.Broken? ==> Kept(old(entries), entries, old(clock))
      ensures outcome.Broken?
        ==> GaveUp(old(entries), entries, Batch(EntryIds(old(entries)), 25 * outcome.batch), old(clock))
    {
      steps := [];
      if syncing { return NotStarted, []; }
      syncing := true;
      if !signedIn {
        syncing := false;
        return NotStarted, [];
      }
      var pending := GetPendingActions();
      phase := Draining(EntryIds(pending), 0);
      assert View() == Next(old(View()), Start);
      ghost var more;
      var broken, b;
      broken, b, more := DrainBatches(pending, others, seen);
      RunCons(old(View()), Start, more);
      steps := [Start] + more;
      if broken {
        StaysDistinct(old(View()), steps);
        outcome := Broken(b);
      } else {
        AfterDrain(old(View()), more);
        outcome := Drained;
        RunSnoc(old(View()), steps, Finish);
        steps := steps + [Finish];
        phase := Idle;
      }
      syncing := false;
    }

    /** Posts one batch; on a reply removes it, else marks it and gives the drain up. */
    method DrainBatch(pending: seq<Entry>, i: nat, others: nat -> seq<Event>, seen: bool)
      returns (broken: bool, ghost steps: seq<Step>)
      requires Valid() && i < |pending| && phase == Draining(EntryIds(pending), i)
      modifies `entries, `clock, `nextId, `history, `recorded, `replies, `phase, `wire, `attempts
      ensures Valid() && View() == Run(old(View()), steps)
      ensures if broken then phase.Idle? else phase == Draining(EntryIds(pending), i + BATCH_SIZE)
      ensures attempts == old(attempts) + 1
      ensures broken ==> !(seen && Request(old(attempts), Batch(EntryIds(pending), i)) in replies)
      ensures old(clock) <= clock && (!broken ==> Kept(old(entries), entries, old(clock)))
      ensures broken && Distinct(EntryIds(entries))
        ==> GaveUp(old(entries), entries, Batch(EntryIds(pending), i), old(clock))
    {
      var batch := pending[i..if i + BATCH_SIZE < |pending| then i + BATCH_SIZE else |pending|];
      assert EntryIds(batch) == Batch(EntryIds(pending), i);
      var request := Request(attempts, EntryIds(batch));
      steps := Post(request, others(0));
      if seen && request in replies {
        ghost var before, since := entries, clock;
        ghost var more := TakeReply(batch, others);
        KeptTwice(old(entries), before, entries, old(clock), since);
        RunAppend(old(View()), steps, more);
        steps := steps + more;
        broken := false;
      } else {
        RunSnoc(old(View()), steps, GotError);
        steps := steps + [GotError];
        phase := Idle;
        ghost var before, since := entries, clock;
        MarkBatch(batch);
        if Distinct(EntryIds(entries)) {
          MarkedGaveUp(old(entries), before, entries, EntryIds(batch), old(clock), since);
        }
        broken := true;
      }
    }

    /** A reply has come: the batch is removed. */
    method TakeReply(batch: seq<Entry>, others: nat -> seq<Event>) returns (ghost steps: seq<Step>)
      requires Valid() && phase.Awaiting? && phase.request in replies && phase.request.actions == EntryIds(batch)
      modifies `entries, `clock, `nextId, `history, `recorded, `replies, `phase
      ensures Valid() && View() == Run(old(View()), steps)
      ensures phase == Draining(old(phase).snapshot, old(phase).at + BATCH_SIZE)
      ensures Kept(old(entries), entries, old(clock)) && old(clock) <= clock
    {
      phase := Removing(phase.snapshot, phase.at, phase.request.actions);
      assert View() == Next(old(View()), GotReply);
      ghost var removing := RemoveBatch(batch, (k: nat) => others(k + 1));
      RunCons(old(View()), GotReply, removing);
      steps := [GotReply] + removing;
    }
  }
}
