/** The server side of offline replay: one record per action id, a version check per update, and a tally per batch. */
module SyncServer {
  import opened Wrappers
  import Sync

  type Id = Sync.Id
  datatype Field = Status | CustomerNotes | InternalNotes

  datatype Op =
    | CreateOrder(located: bool, notes: Option<string>, items: seq<bool>)  // vessel and port known; items well formed
    | UpdateOrder(entity: Option<Id>, stamp: Option<int>, changes: map<Field, string>)
    | CreateItem(order: Option<Id>, wellFormed: bool)
    | Unsupported

  datatype Action = Action(id: Id, op: Op)
  datatype Outcome = Applied | Failed | Conflict

  /** version is updated_at, the moment of the row's last write. */
  datatype Row = Row(version: int, content: map<Field, string>, items: nat)

  /** recorded: client action ids in order of arrival; disputed: actions with a conflict record. */
  datatype Db = Db(orders: map<Id, Row>, recorded: seq<Id>, disputed: seq<Id>, clock: int, nextId: Id)

  datatype BatchStatus = Completed | Partial | AllFailed
  datatype Tally = Tally(total: nat, applied: nat, failed: nat, conflicts: nat, status: BatchStatus)

  /** Conflict when the server's version is newer than the one the client edited. */
  predicate Newer(row: Row, stamp: Option<int>) {
    stamp.Some? && row.version > stamp.value
  }

  /** How many items come before the first that is not well formed. */
  function LeadingGood(items: seq<bool>): (n: nat)
    ensures n <= |items| && (forall i :: 0 <= i < n ==> items[i]) && (n < |items| ==> !items[n])
  {
    if items == [] || !items[0] then 0 else 1 + LeadingGood(items[1..])
  }

  function Perform(db: Db, op: Op): (Db, Outcome) {
    match op
    case Unsupported => (db, Failed)
    case CreateOrder(located, notes, items) =>
      if !located then (db, Failed)
      else  // the order is written before its items are looked at, and keeps those before the first bad one
        var content := if notes.Some? then map[CustomerNotes := notes.value] else map[];
        var row := Row(db.clock, content, LeadingGood(items));
        (db.(orders := db.orders[db.nextId := row], nextId := db.nextId + 1, clock := db.clock + 1),
         if LeadingGood(items) == |items| then Applied else Failed)
    case CreateItem(order, wellFormed) =>
      if order.None? || order.value !in db.orders || !wellFormed then (db, Failed)
      else
        var row := db.orders[order.value];
        (db.(orders := db.orders[order.value := row.(items := row.items + 1)]), Applied)
    case UpdateOrder(entity, stamp, changes) =>
      if entity.None? || entity.value !in db.orders then (db, Failed)
      else
        var row := db.orders[entity.value];
        if Newer(row, stamp) then (db, Conflict)
        else
          (db.(orders := db.orders[entity.value := row.(version := db.clock, content := row.content + changes)],
               clock := db.clock + 1), Applied)
  }

  /** One action: its id is recorded whatever becomes of it, and a second arrival of the id fails. */
  function ReplayOne(db: Db, act: Action): (Db, Outcome) {
    if act.id in db.recorded then (db, Failed)
    else
      var (after, outcome) := Perform(db.(recorded := db.recorded + [act.id]), act.op);
      (if outcome == Conflict then after.(disputed := after.disputed + [act.id]) else after, outcome)
  }

  function ReplayAll(db: Db, acts: seq<Action>): (r: (Db, seq<Outcome>))
    ensures |r.1| == |acts|
  {
    if acts == [] then (db, [])
    else
      var before := ReplayAll(db, acts[..|acts| - 1]);
      var (after, outcome) := ReplayOne(before.0, acts[|acts| - 1]);
      (after, before.1 + [outcome])
  }

  function Count(outcomes: seq<Outcome>, kind: Outcome): nat {
    if outcomes == [] then 0
    else Count(outcomes[..|outcomes| - 1], kind) + if outcomes[|outcomes| - 1] == kind then 1 else 0
  }

  /** The summary a batch is answered with. */
  function TallyOf(outcomes: seq<Outcome>): Tally {
    var applied, failed, conflicts := Count(outcomes, Applied), Count(outcomes, Failed), Count(outcomes, Conflict);
    Tally(|outcomes|, applied, failed, conflicts,
          if failed == 0 && conflicts == 0 then Completed else if applied > 0 then Partial else AllFailed)
  }

  lemma CountSnoc(outcomes: seq<Outcome>, outcome: Outcome, kind: Outcome)
    ensures Count(outcomes + [outcome], kind) == Count(outcomes, kind) + if outcome == kind then 1 else 0
  {
    assert (outcomes + [outcome])[..|outcomes|] == outcomes;
  }

  lemma ReplaySnoc(db: Db, acts: seq<Action>, i: nat)
    requires i < |acts|
    ensures var before := ReplayAll(db, acts[..i]); var step := ReplayOne(before.0, acts[i]);
            ReplayAll(db, acts[..i + 1]).0 == step.0 && ReplayAll(db, acts[..i + 1]).1 == before.1 + [step.1]
  {
    assert acts[..i + 1][..i] == acts[..i];
  }

  function ActionId(act: Action): Id {
    act.id
  }

  function ActionIds(acts: seq<Action>): seq<Id> {
    Sync.Ids(ActionId, acts)
  }

  class Server {
    var db: Db

    constructor (db: Db)
      ensures this.db == db
    {
      this.db := db;
    }

    /**
     Replays a batch in order. With abort, a batch that contains a known id fails as a whole, as it
     does when the first failed insert leaves the session unusable until its rollback.
     */
    method ReplayActions(acts: seq<Action>, abort: bool) returns (r: Result<Tally, ()>)
      modifies this
      ensures r.Err? <==> abort && Sync.HasDuplicate(old(db).recorded, ActionIds(acts))
      ensures r.Err? ==> db == old(db)
      ensures r.Ok? ==> db == ReplayAll(old(db), acts).0 && r.value == TallyOf(ReplayAll(old(db), acts).1)
    {
      if abort && Sync.HasDuplicate(db.recorded, ActionIds(acts)) {
        return Err(());
      }
      var applied, failed, conflicts := 0, 0, 0;
      ghost var outcomes: seq<Outcome> := [];
      for i := 0 to |acts|
        invariant db == ReplayAll(old(db), acts[..i]).0 && outcomes == ReplayAll(old(db), acts[..i]).1
        invariant applied == Count(outcomes, Applied) && failed == Count(outcomes, Failed)
                  && conflicts == Count(outcomes, Conflict)
      {
        ReplaySnoc(old(db), acts, i);
        var (after, outcome) := ReplayOne(db, acts[i]);
        db := after;
        CountSnoc(outcomes, outcome, Applied);
        CountSnoc(outcomes, outcome, Failed);
        CountSnoc(outcomes, outcome, Conflict);
        outcomes := outcomes + [outcome];
        match outcome
        case Applied => applied := applied + 1;
        case Failed => failed := failed + 1;
        case Conflict => conflicts := conflicts + 1;
      }
      assert acts[..|acts|] == acts;
      var status := if failed == 0 && conflicts == 0 then Completed else if applied > 0 then Partial else AllFailed;
      return Ok(Tally(|acts|, applied, failed, conflicts, status));
    }
  }

  // ----- accounting -----

  lemma {:induction false} CountsAddUp(outcomes: seq<Outcome>)
    ensures Count(outcomes, Applied) + Count(outcomes, Failed) + Count(outcomes, Conflict) == |outcomes|
    ensures forall kind :: Count(outcomes, kind) == 0 <==> kind !in outcomes
  {
    if outcomes != [] {
      CountsAddUp(outcomes[..|outcomes| - 1]);
      assert outcomes == outcomes[..|outcomes| - 1] + [outcomes[|outcomes| - 1]];
    }
  }

  /** Every action is counted once; COMPLETED means each was applied, FAILED that none was and there was one. */
  lemma {:induction false} TallyMeaning(db: Db, acts: seq<Action>)
    ensures var outcomes := ReplayAll(db, acts).1; var t := TallyOf(outcomes);
            && t.total == |acts| == t.applied + t.failed + t.conflicts
            && (t.status == Completed <==> forall i :: 0 <= i < |acts| ==> outcomes[i] == Applied)
            && (t.status == AllFailed <==> acts != [] && forall i :: 0 <= i < |acts| ==> outcomes[i] != Applied)
  {
    var outcomes := ReplayAll(db, acts).1;
    CountsAddUp(outcomes);
    forall i | 0 <= i < |acts| ensures outcomes[i] in outcomes {}
  }

  /** A batch that is let in leaves the ids exactly as the replay protocol says. */
  lemma {:induction false} ReplayRecords(db: Db, acts: seq<Action>)
    ensures ReplayAll(db, acts).0.recorded == Sync.Record(db.recorded, ActionIds(acts))
  {
    if acts != [] {
      var last := |acts| - 1;
      ReplayRecords(db, acts[..last]);
      assert ActionIds(acts)[..last] == ActionIds(acts[..last]);
    }
  }

  // ----- updates from several devices -----

  /** No row was written at or after the present moment. */
  ghost predicate PastVersions(db: Db) {
    forall o :: o in db.orders ==> db.orders[o].version < db.clock && o < db.nextId
  }

  lemma VersionsAdvance(db: Db, act: Action)
    requires PastVersions(db)
    ensures var t := ReplayOne(db, act).0;
            PastVersions(t) && db.clock <= t.clock
            && forall o :: o in db.orders ==> o in t.orders && db.orders[o].version <= t.orders[o].version
  {
  }

  lemma {:induction false} VersionsAdvanceAll(db: Db, acts: seq<Action>)
    requires PastVersions(db)
    ensures var t := ReplayAll(db, acts).0;
            PastVersions(t) && db.clock <= t.clock
            && forall o :: o in db.orders ==> o in t.orders && db.orders[o].version <= t.orders[o].version
  {
    if acts != [] {
      VersionsAdvanceAll(db, acts[..|acts| - 1]);
      VersionsAdvance(ReplayAll(db, acts[..|acts| - 1]).0, acts[|acts| - 1]);
    }
  }

  lemma {:induction false} ReplayAppend(db: Db, a: seq<Action>, b: seq<Action>)
    ensures ReplayAll(db, a + b).0 == ReplayAll(ReplayAll(db, a).0, b).0
    ensures ReplayAll(db, a + b).1 == ReplayAll(db, a).1 + ReplayAll(ReplayAll(db, a).0, b).1
    decreases |b|
  {
    if b == [] {
      assert a + b == a;
    } else {
      ReplayAppend(db, a, b[..|b| - 1]);
      assert (a + b)[..|a + b| - 1] == a + b[..|b| - 1];
    }
  }

  /** Replaying what follows the first k actions. */
  lemma ReplayFrom(db: Db, acts: seq<Action>, k: nat, i: nat)
    requires k <= i < |acts|
    ensures ReplayAll(db, acts).1[i] == ReplayAll(ReplayAll(db, acts[..k]).0, acts[k..i + 1]).1[i - k]
    ensures ReplayAll(db, acts[..i]).0 == ReplayAll(ReplayAll(db, acts[..k]).0, acts[k..i]).0
    ensures ReplayAll(db, acts).1[i] == ReplayOne(ReplayAll(db, acts[..i]).0, acts[i]).1
  {
    assert acts == acts[..i + 1] + acts[i + 1..];
    ReplayAppend(db, acts[..i + 1], acts[i + 1..]);
    assert acts[..i + 1] == acts[..k] + acts[k..i + 1];
    ReplayAppend(db, acts[..k], acts[k..i + 1]);
    assert acts[..i] == acts[..k] + acts[k..i];
    ReplayAppend(db, acts[..k], acts[k..i]);
    assert acts[..i + 1][..i] == acts[..i];
  }

  /** The version that an applied update of order o writes, and the least the row can carry afterwards. */
  lemma AppliedVersion(db: Db, acts: seq<Action>, i: nat, j: nat, o: Id)
    requires PastVersions(db) && i < j < |acts|
    requires acts[i].op.UpdateOrder? && acts[i].op.entity == Some(o) && ReplayAll(db, acts).1[i] == Applied
    ensures var before, now := ReplayAll(db, acts[..i]).0, ReplayAll(db, acts[..j]).0;
            o in now.orders && before.clock <= now.orders[o].version
  {
    ReplayFrom(db, acts, i, i);
    VersionsAdvanceAll(db, acts[..i]);
    var before := ReplayAll(db, acts[..i]).0;
    VersionsAdvance(before, acts[i]);
    assert acts[..i + 1][..i] == acts[..i];
    ReplayFrom(db, acts, i + 1, j);
    VersionsAdvanceAll(ReplayOne(before, acts[i]).0, acts[i + 1..j]);
  }

  /**
   Of all updates to one order that carry the same version stamp of the server, at most one is applied,
   in whatever batches and from whatever devices they come; a later one is a conflict, or a repetition.
   */
  lemma {:induction false} NoLostUpdate(db: Db, acts: seq<Action>, i: nat, j: nat, o: Id, stamp: int)
    requires PastVersions(db) && stamp < db.clock && i < j < |acts|
    requires acts[i].op.UpdateOrder? && acts[i].op.entity == Some(o) && acts[i].op.stamp == Some(stamp)
    requires acts[j].op.UpdateOrder? && acts[j].op.entity == Some(o) && acts[j].op.stamp == Some(stamp)
    requires ReplayAll(db, acts).1[i] == Applied
    ensures ReplayAll(db, acts).1[j] == if acts[j].id in ReplayAll(db, acts[..j]).0.recorded then Failed else Conflict
  {
    AppliedVersion(db, acts, i, j, o);
    VersionsAdvanceAll(db, acts[..i]);
    ReplayFrom(db, acts, j, j);
  }

  /**
   Whatever is replayed between them, an update of the same order that comes later is applied exactly when it
   carries no stamp or one no older than the row; otherwise it is a conflict. It goes over the earlier update
   without its device having seen it exactly when it carries no stamp.
   */
  lemma OverwritesExactly(db: Db, acts: seq<Action>, i: nat, j: nat, o: Id)
    requires PastVersions(db) && i < j < |acts| && acts[j].id !in ReplayAll(db, acts[..j]).0.recorded
    requires acts[i].op.UpdateOrder? && acts[i].op.entity == Some(o) && ReplayAll(db, acts).1[i] == Applied
    requires acts[j].op.UpdateOrder? && acts[j].op.entity == Some(o)
    ensures var written, now := ReplayAll(db, acts[..i]).0.clock, ReplayAll(db, acts[..j]).0;
            var stamp, outcome := acts[j].op.stamp, ReplayAll(db, acts).1[j];
            && o in now.orders && written <= now.orders[o].version
            && (outcome == Applied <==> stamp.None? || stamp.value >= now.orders[o].version)
            && (outcome == Applied || outcome == Conflict)
            && (outcome == Applied && (stamp.None? || stamp.value < written) <==> stamp.None?)
  {
    AppliedVersion(db, acts, i, j, o);
    ReplayFrom(db, acts, j, j);
  }

  /** Two devices without stamps: the second note replaces the first and no conflict is recorded. */
  lemma StamplessUpdateIsLost()
    ensures var db := Db(map[7 := Row(0, map[], 0)], [], [], 1, 8);
            var acts := [Action(1, UpdateOrder(Some(7), None, map[CustomerNotes := "a"])),
                         Action(2, UpdateOrder(Some(7), None, map[CustomerNotes := "b"]))];
            var (after, outcomes) := ReplayAll(db, acts);
            outcomes == [Applied, Applied] && after.disputed == []
            && 7 in after.orders && after.orders[7].content == map[CustomerNotes := "b"]
  {
    var db := Db(map[7 := Row(0, map[], 0)], [], [], 1, 8);
    var a := Action(1, UpdateOrder(Some(7), None, map[CustomerNotes := "a"]));
    var b := Action(2, UpdateOrder(Some(7), None, map[CustomerNotes := "b"]));
    assert [a, b][..1] == [a] && [a][..0] == [];
    assert ReplayAll(db, []) == (db, []);
    assert ReplayAll(db, [a]).0 == ReplayOne(db, a).0 && ReplayAll(db, [a]).1 == [Applied];
  }
}
