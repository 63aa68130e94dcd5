/** Exactly-once effect: what the replay protocol and the server's work on an action amount to together. */
module SyncEffect {
  import opened SyncServer
  import Sync

  /** The actions that arrive for the first time. */
  function First(recorded: seq<Id>, acts: seq<Action>): seq<Action> {
    if acts == [] then []
    else
      var front, last := acts[..|acts| - 1], acts[|acts| - 1];
      First(recorded, front) + if last.id in recorded || last.id in ActionIds(front) then [] else [last]
  }

  lemma {:induction false} RecordMembers(recorded: seq<Id>, ids: seq<Id>, id: Id)
    ensures id in Sync.Record(recorded, ids) <==> id in recorded || id in ids
  {
    if ids != [] {
      RecordMembers(recorded, ids[..|ids| - 1], id);
      assert ids == ids[..|ids| - 1] + [ids[|ids| - 1]];
    }
  }

  lemma RecordSnoc(recorded: seq<Id>, ids: seq<Id>, id: Id)
    ensures var before := Sync.Record(recorded, ids);
            Sync.Record(recorded, ids + [id]) == if id in before then before else before + [id]
  {
    assert (ids + [id])[..|ids|] == ids;
  }

  lemma IdsSnoc(acts: seq<Action>, act: Action)
    ensures ActionIds(acts + [act]) == ActionIds(acts) + [act.id]
  {
  }

  lemma Appended(a: seq<Id>, b: seq<Id>, c: seq<Id>)
    ensures (a + b) + c == a + (b + c)
  {
  }

  /** There is one first arrival for each id that the stream adds to the record. */
  lemma {:induction false} FirstAreNew(recorded: seq<Id>, acts: seq<Action>)
    ensures Sync.Record(recorded, ActionIds(acts)) == recorded + ActionIds(First(recorded, acts))
  {
    if acts == [] {
      assert recorded + ActionIds([]) == recorded;
    } else {
      var front, last := acts[..|acts| - 1], acts[|acts| - 1];
      FirstAreNew(recorded, front);
      RecordMembers(recorded, ActionIds(front), last.id);
      RecordSnoc(recorded, ActionIds(front), last.id);
      assert front + [last] == acts;
      IdsSnoc(front, last);
      var first := First(recorded, front);
      IdsSnoc(first, last);
      Appended(recorded, ActionIds(first), [last.id]);
      assert first + [] == first;
    }
  }

  lemma ReplaySnocDb(db: Db, acts: seq<Action>, act: Action)
    ensures ReplayAll(db, acts + [act]).0 == ReplayOne(ReplayAll(db, acts).0, act).0
  {
    assert (acts + [act])[..|acts|] == acts;
  }

  /** Repetitions leave no trace: the database is that of the first arrivals alone. */
  lemma {:induction false} FirstArrivalsSuffice(db: Db, acts: seq<Action>)
    ensures ReplayAll(db, acts).0 == ReplayAll(db, First(db.recorded, acts)).0
  {
    if acts != [] {
      var front, last := acts[..|acts| - 1], acts[|acts| - 1];
      FirstArrivalsSuffice(db, front);
      ReplayRecords(db, front);
      RecordMembers(db.recorded, ActionIds(front), last.id);
      var first := First(db.recorded, front);
      assert first + [] == first;
      ReplaySnocDb(db, first, last);
    }
  }

  /** The action that an id stands for. */
  ghost predicate Payload(act: Id -> Action) {
    forall id :: act(id).id == id
  }

  function Actions(act: Id -> Action, ids: seq<Id>): (acts: seq<Action>)
    ensures |acts| == |ids|
  {
    seq(|ids|, i requires 0 <= i < |ids| => act(ids[i]))
  }

  lemma ActionsSnoc(act: Id -> Action, ids: seq<Id>, id: Id)
    ensures Actions(act, ids + [id]) == Actions(act, ids) + [act(id)]
  {
  }

  lemma OneMore(db: Db, act: Action)
    ensures ReplayOne(db, act).0.recorded == if act.id in db.recorded then db.recorded else db.recorded + [act.id]
    ensures act.id in db.recorded ==> ReplayOne(db, act).0 == db
  {
  }

  /** One more id, after those in known. */
  lemma OneMoreRecorded(db: Db, known: seq<Id>, id: Id, act: Id -> Action)
    requires Payload(act) && ReplayAll(db, Actions(act, known)).0.recorded == known
    ensures var after := if id in known then known else known + [id];
            var t := ReplayOne(ReplayAll(db, Actions(act, known)).0, act(id)).0;
            t == ReplayAll(db, Actions(act, after)).0 && t.recorded == after
  {
    OneMore(ReplayAll(db, Actions(act, known)).0, act(id));
    ActionsSnoc(act, known, id);
    ReplaySnocDb(db, Actions(act, known), act(id));
  }

  /** Replaying ids after others amounts to replaying what is recorded in the end. */
  ghost predicate ReplaysAsRecorded(db: Db, recorded: seq<Id>, ids: seq<Id>, act: Id -> Action) {
    var t := ReplayAll(ReplayAll(db, Actions(act, recorded)).0, Actions(act, ids)).0;
    var known := Sync.Record(recorded, ids);
    t == ReplayAll(db, Actions(act, known)).0 && t.recorded == known
  }

  lemma ReplaysOneMore(db: Db, recorded: seq<Id>, ids: seq<Id>, id: Id, act: Id -> Action)
    requires Payload(act) && ReplaysAsRecorded(db, recorded, ids, act)
    ensures ReplaysAsRecorded(db, recorded, ids + [id], act)
  {
    OneMoreRecorded(db, Sync.Record(recorded, ids), id, act);
    RecordSnoc(recorded, ids, id);
    ActionsSnoc(act, ids, id);
    ReplaySnocDb(ReplayAll(db, Actions(act, recorded)).0, Actions(act, ids), act(id));
  }

  lemma {:induction false} ReplayIsRecord(db: Db, recorded: seq<Id>, ids: seq<Id>, act: Id -> Action)
    requires Payload(act) && ReplayAll(db, Actions(act, recorded)).0.recorded == recorded
    ensures ReplaysAsRecorded(db, recorded, ids, act)
  {
    if ids != [] {
      var front, id := ids[..|ids| - 1], ids[|ids| - 1];
      ReplayIsRecord(db, recorded, front, act);
      ReplaysOneMore(db, recorded, front, id, act);
      assert ids == front + [id];
    }
  }

  /** The server's database along a run of the protocol. */
  ghost function Served(db: Db, steps: seq<Sync.Step>, act: Id -> Action): Db {
    if steps == [] then db
    else
      var front, step := steps[..|steps| - 1], steps[|steps| - 1];
      ServeStep(Served(db, front, act), Sync.Run(Sync.Initial, front), step, act)
  }

  ghost function ServeStep(db: Db, s: Sync.State, step: Sync.Step, act: Id -> Action): Db {
    if step.Deliver? && Sync.Enabled(s, step) && !(step.abort && Sync.HasDuplicate(s.recorded, step.request.actions))
    then ReplayAll(db, Actions(act, step.request.actions)).0
    else db
  }

  /**
   Whatever is lost, delayed, repeated or reordered, the server's database is that of replaying once, in order, a
   prefix of what the device enqueued.
   */
  lemma {:induction false} ExactlyOnce(db: Db, steps: seq<Sync.Step>, act: Id -> Action)
    requires Payload(act) && db.recorded == []
    ensures var t := Sync.Run(Sync.Initial, steps);
            t.recorded <= t.history && Served(db, steps, act) == ReplayAll(db, Actions(act, t.recorded)).0
            && Served(db, steps, act).recorded == t.recorded
  {
    Sync.AtMostOnce(steps);
    if steps == [] {
      assert Actions(act, []) == [];
    } else {
      var front, step := steps[..|steps| - 1], steps[|steps| - 1];
      ExactlyOnce(db, front, act);
      var s := Sync.Run(Sync.Initial, front);
      if step.Deliver? { ReplayIsRecord(db, s.recorded, step.request.actions, act); }
      RecordedOnlyByDelivery(s, step);
    }
  }

  lemma RecordedOnlyByDelivery(s: Sync.State, step: Sync.Step)
    ensures Sync.Next(s, step).recorded ==
      if step.Deliver? && Sync.Enabled(s, step) && !(step.abort && Sync.HasDuplicate(s.recorded, step.request.actions))
      then Sync.Record(s.recorded, step.request.actions) else s.recorded
  {
  }
}
