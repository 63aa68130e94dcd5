/** What a replay writes: every row against the actions of the batch that were applied to it. */
module SyncWrites {
  import opened Wrappers
  import opened SyncServer
  import SyncEffect

  // ----- when an action is applied -----

  /** The action arrives for the first time. */
  ghost predicate Fresh(db: Db, acts: seq<Action>, i: nat)
    requires i < |acts|
  {
    acts[i].id !in db.recorded && acts[i].id !in ActionIds(acts[..i])
  }

  /** An update meets a row that is newer than the one its device edited. */
  ghost predicate Stale(orders: map<Id, Row>, op: Op) {
    op.UpdateOrder? && op.entity.Some? && op.entity.value in orders
    && op.stamp.Some? && op.stamp.value < orders[op.entity.value].version
  }

  /** Everything the action needs is there. */
  ghost predicate Possible(orders: map<Id, Row>, op: Op) {
    match op
    case CreateOrder(located, _, items) => located && forall k :: 0 <= k < |items| ==> items[k]
    case UpdateOrder(entity, _, _) => entity.Some? && entity.value in orders && !Stale(orders, op)
    case CreateItem(order, wellFormed) => order.Some? && order.value in orders && wellFormed
    case Unsupported => false
  }

  lemma OneOutcome(db: Db, act: Action)
    ensures var outcome := ReplayOne(db, act).1;
            && (outcome == Applied <==> act.id !in db.recorded && Possible(db.orders, act.op))
            && (outcome == Conflict <==> act.id !in db.recorded && Stale(db.orders, act.op))
  {
  }

  lemma KnownIds(db: Db, acts: seq<Action>, id: Id)
    ensures id in ReplayAll(db, acts).0.recorded <==> id in db.recorded || id in ActionIds(acts)
  {
    ReplayRecords(db, acts);
    SyncEffect.RecordMembers(db.recorded, ActionIds(acts), id);
  }

  /** An action is applied exactly when it is new and all it needs is there; it is a conflict exactly
     when it is new and would go over a newer row. */
  lemma OutcomeExactly(db: Db, acts: seq<Action>, i: nat)
    requires i < |acts|
    ensures var orders, outcome := ReplayAll(db, acts[..i]).0.orders, ReplayAll(db, acts).1[i];
            && (outcome == Applied <==> Fresh(db, acts, i) && Possible(orders, acts[i].op))
            && (outcome == Conflict <==> Fresh(db, acts, i) && Stale(orders, acts[i].op))
  {
    ReplayFrom(db, acts, i, i);
    KnownIds(db, acts[..i], acts[i].id);
    OneOutcome(ReplayAll(db, acts[..i]).0, acts[i]);
  }

  // ----- the last writer -----

  /** An action that sets the field of the order. */
  ghost predicate Sets(act: Action, o: Id, f: Field) {
    act.op.UpdateOrder? && act.op.entity == Some(o) && f in act.op.changes
  }

  ghost predicate AddsItem(act: Action, o: Id) {
    act.op.CreateItem? && act.op.order == Some(o)
  }

  /** The value given by the last applied action that sets the field, or else the initial one. */
  ghost function LastWritten(acts: seq<Action>, outcomes: seq<Outcome>, o: Id, f: Field, initial: Option<string>)
    : Option<string>
    requires |acts| == |outcomes|
  {
    if acts == [] then initial
    else
      var last := |acts| - 1;
      if outcomes[last] == Applied && Sets(acts[last], o, f) then Some(acts[last].op.changes[f])
      else LastWritten(acts[..last], outcomes[..last], o, f, initial)
  }

  ghost function ItemsAdded(acts: seq<Action>, outcomes: seq<Outcome>, o: Id): nat
    requires |acts| == |outcomes|
  {
    if acts == [] then 0
    else
      var last := |acts| - 1;
      ItemsAdded(acts[..last], outcomes[..last], o)
        + if outcomes[last] == Applied && AddsItem(acts[last], o) then 1 else 0
  }

  ghost function Held(row: Row, f: Field): Option<string> {
    if f in row.content then Some(row.content[f]) else None
  }

  /** The row at the end holds, field by field, what was written last, and as many items as were added. */
  ghost predicate Follows(row: Row, end: Row, acts: seq<Action>, outcomes: seq<Outcome>, o: Id)
    requires |acts| == |outcomes|
  {
    && (forall f :: Held(end, f) == LastWritten(acts, outcomes, o, f, Held(row, f)))
    && end.items == row.items + ItemsAdded(acts, outcomes, o)
  }

  lemma OneWrite(db: Db, act: Action, o: Id)
    requires PastVersions(db) && o in db.orders
    ensures var (t, outcome) := ReplayOne(db, act);
            && o in t.orders
            && (forall f :: Held(t.orders[o], f)
                  == if outcome == Applied && Sets(act, o, f) then Some(act.op.changes[f]) else Held(db.orders[o], f))
            && t.orders[o].items == db.orders[o].items + if outcome == Applied && AddsItem(act, o) then 1 else 0
  {
  }

  /**
   The last writer wins, field by field: every order present at the start ends with the values set by the last
   applied updates that name them, and keeps the others. Conflicts, failures, repetitions and whatever is done to
   other orders leave it alone.
   */
  lemma {:induction false} LastWriterWins(db: Db, acts: seq<Action>, o: Id)
    requires PastVersions(db) && o in db.orders
    ensures var (t, outcomes) := ReplayAll(db, acts);
            o in t.orders && Follows(db.orders[o], t.orders[o], acts, outcomes, o)
  {
    if acts != [] {
      var front, act := acts[..|acts| - 1], acts[|acts| - 1];
      LastWriterWins(db, front, o);
      VersionsAdvanceAll(db, front);
      var (before, outcomes) := ReplayAll(db, front);
      OneWrite(before, act, o);
      assert ReplayAll(db, acts).1[..|front|] == outcomes;
    }
  }

  /** Some update of the order was applied. */
  ghost predicate Updated(acts: seq<Action>, outcomes: seq<Outcome>, o: Id)
    requires |acts| == |outcomes|
  {
    exists i :: 0 <= i < |acts| && outcomes[i] == Applied && acts[i].op.UpdateOrder? && acts[i].op.entity == Some(o)
  }

  lemma OneVersion(db: Db, act: Action, o: Id)
    requires PastVersions(db) && o in db.orders
    ensures var (t, outcome) := ReplayOne(db, act);
            o in t.orders && t.orders[o].version
              == if outcome == Applied && act.op.UpdateOrder? && act.op.entity == Some(o) then db.clock
                 else db.orders[o].version
  {
  }

  lemma UpdatedSnoc(acts: seq<Action>, outcomes: seq<Outcome>, act: Action, outcome: Outcome, o: Id)
    requires |acts| == |outcomes|
    ensures Updated(acts + [act], outcomes + [outcome], o) <==>
      Updated(acts, outcomes, o) || (outcome == Applied && act.op.UpdateOrder? && act.op.entity == Some(o))
  {
    if Updated(acts, outcomes, o) {
      var i :| 0 <= i < |acts| && outcomes[i] == Applied && acts[i].op.UpdateOrder? && acts[i].op.entity == Some(o);
      assert (outcomes + [outcome])[i] == Applied && (acts + [act])[i] == acts[i];
    }
    assert (outcomes + [outcome])[|acts|] == outcome && (acts + [act])[|acts|] == act;
  }

  /** The version that conflicts are judged by moves exactly when an update of the order is applied: added items
     and everything else leave it as it was. */
  lemma {:induction false} VersionExactly(db: Db, acts: seq<Action>, o: Id)
    requires PastVersions(db) && o in db.orders
    ensures var (t, outcomes) := ReplayAll(db, acts);
            o in t.orders && if Updated(acts, outcomes, o) then t.orders[o].version >= db.clock
                             else t.orders[o].version == db.orders[o].version
  {
    if acts != [] {
      var front, act := acts[..|acts| - 1], acts[|acts| - 1];
      VersionExactly(db, front, o);
      VersionsAdvanceAll(db, front);
      var (before, outcomes) := ReplayAll(db, front);
      OneVersion(before, act, o);
      UpdatedSnoc(front, outcomes, act, ReplayOne(before, act).1, o);
      assert front + [act] == acts;
    }
  }

  /** From the k-th action on, the last writer decides what the order holds. */
  ghost predicate FollowedFrom(db: Db, acts: seq<Action>, k: nat, o: Id)
    requires k <= |acts|
  {
    var start, (t, outcomes) := ReplayAll(db, acts[..k]).0, ReplayAll(db, acts);
    o in start.orders && o in t.orders && Follows(start.orders[o], t.orders[o], acts[k..], outcomes[k..], o)
  }

  /** The same for an order that is there after the first k actions, such as one the batch itself created. */
  lemma LastWriterFrom(db: Db, acts: seq<Action>, k: nat, o: Id)
    requires PastVersions(db) && k <= |acts| && o in ReplayAll(db, acts[..k]).0.orders
    ensures FollowedFrom(db, acts, k, o)
  {
    VersionsAdvanceAll(db, acts[..k]);
    var start := ReplayAll(db, acts[..k]).0;
    LastWriterWins(start, acts[k..], o);
    ReplayAppend(db, acts[..k], acts[k..]);
    assert acts[..k] + acts[k..] == acts;
    assert ReplayAll(db, acts).1[k..] == ReplayAll(start, acts[k..]).1;
  }

  // ----- new rows -----

  /** One row more, under an unused id, with the notes and all the items of the creation. */
  ghost predicate Added(orders: map<Id, Row>, after: map<Id, Row>, o: Id, op: Op) {
    && op.CreateOrder? && o !in orders && after.Keys == orders.Keys + {o}
    && (forall p :: p in orders ==> after[p] == orders[p])
    && after[o].items == |op.items|
    && forall f :: Held(after[o], f) == if f == CustomerNotes then op.notes else None
  }

  lemma OneCreation(db: Db, act: Action)
    requires PastVersions(db)
    requires act.op.CreateOrder? && ReplayOne(db, act).1 == Applied
    ensures Added(db.orders, ReplayOne(db, act).0.orders, db.nextId, act.op)
  {
  }

  /**
   An applied creation adds one row, under an id that was not in use, with the notes and all the items it came
   with; from then on the last writer decides what the row holds.
   */
  lemma CreationAddsOneRow(db: Db, acts: seq<Action>, i: nat)
    requires PastVersions(db) && i < |acts| && acts[i].op.CreateOrder? && ReplayAll(db, acts).1[i] == Applied
    ensures var o := ReplayAll(db, acts[..i]).0.nextId;
            && Added(ReplayAll(db, acts[..i]).0.orders, ReplayAll(db, acts[..i + 1]).0.orders, o, acts[i].op)
            && FollowedFrom(db, acts, i + 1, o)
  {
    ReplayFrom(db, acts, i, i);
    ReplaySnoc(db, acts, i);
    VersionsAdvanceAll(db, acts[..i]);
    OneCreation(ReplayAll(db, acts[..i]).0, acts[i]);
    LastWriterFrom(db, acts, i + 1, ReplayAll(db, acts[..i]).0.nextId);
  }

  /** The creations that arrive for the first time and say where: each of them leaves a row. */
  ghost function Creations(recorded: seq<Id>, acts: seq<Action>): nat {
    if acts == [] then 0
    else
      var front, act := acts[..|acts| - 1], acts[|acts| - 1];
      Creations(recorded, front)
        + if act.op.CreateOrder? && act.op.located && act.id !in recorded && act.id !in ActionIds(front) then 1 else 0
  }

  lemma OneRow(db: Db, act: Action)
    requires PastVersions(db)
    ensures var t := ReplayOne(db, act).0;
            var created := act.op.CreateOrder? && act.op.located && act.id !in db.recorded;
            t.orders.Keys == if created then db.orders.Keys + {db.nextId} else db.orders.Keys
  {
  }

  /**
   No row is lost and none is made up. A creation refused for an item that is not well formed leaves its
   row behind all the same.
   */
  lemma {:induction false} RowsCreated(db: Db, acts: seq<Action>)
    requires PastVersions(db)
    ensures var t := ReplayAll(db, acts).0;
            db.orders.Keys <= t.orders.Keys && |t.orders.Keys| == |db.orders.Keys| + Creations(db.recorded, acts)
  {
    if acts != [] {
      var front, act := acts[..|acts| - 1], acts[|acts| - 1];
      RowsCreated(db, front);
      VersionsAdvanceAll(db, front);
      KnownIds(db, front, act.id);
      OneRow(ReplayAll(db, front).0, act);
    }
  }

  // ----- conflict records -----

  /** The ids of the actions with outcome Conflict, in order. */
  ghost function ConflictIds(acts: seq<Action>, outcomes: seq<Outcome>): seq<Id>
    requires |acts| == |outcomes|
  {
    if acts == [] then []
    else
      var last := |acts| - 1;
      ConflictIds(acts[..last], outcomes[..last]) + if outcomes[last] == Conflict then [acts[last].id] else []
  }

  /** Every conflict leaves one conflict record, and nothing else does. */
  lemma {:induction false} ConflictsRecorded(db: Db, acts: seq<Action>)
    ensures var (t, outcomes) := ReplayAll(db, acts); t.disputed == db.disputed + ConflictIds(acts, outcomes)
  {
    if acts != [] {
      var front := acts[..|acts| - 1];
      ConflictsRecorded(db, front);
      assert ReplayAll(db, acts).1[..|front|] == ReplayAll(db, front).1;
    }
  }
}
