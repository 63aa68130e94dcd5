/** What every run of the marketplace keeps: the joint life of orders and RFQs, and what is decided stays decided. */
module MarketSafety {
  import opened Wrappers
  import opened Market

  // ----- orders and their RFQs -----

  predicate Live(rfq: Rfq) { rfq.status == Sent || rfq.status == Closed }
  predicate Engaged(rfq: Rfq) { Live(rfq) || rfq.status == Awarded }

  /** Every identifier in use was handed out before. */
  ghost predicate Fresh(s: State) {
    (forall r :: r in s.rfqs ==> r < s.nextId) && (forall o :: o in s.orders ==> o < s.nextId)
  }

  ghost predicate RfqFits(s: State, r: Id)
    requires r in s.rfqs
  {
    var rfq := s.rfqs[r];
    rfq.order in s.orders &&
    match rfq.status
    case Sent => s.orders[rfq.order].status == RfqSent
    case Closed => s.orders[rfq.order].status == RfqSent || s.orders[rfq.order].status == RfqClosed
    case Awarded => s.orders[rfq.order].status == Approved
    case Withdrawn => true
  }

  ghost predicate Backs(s: State, r: Id, o: Id)
    requires o in s.orders
  {
    r in s.rfqs && s.rfqs[r].order == o &&
    match s.orders[o].status
    case RfqSent => Live(s.rfqs[r])
    case RfqClosed => s.rfqs[r].status == Closed
    case Approved => s.rfqs[r].status == Awarded
    case _ => false
  }

  ghost predicate OrderFits(s: State, o: Id)
    requires o in s.orders
  {
    match s.orders[o].status
    case Draft => true
    case PendingApproval => true
    case Rejected => false
    case Cancelled => false
    case _ => exists r :: Backs(s, r, o)
  }

  ghost predicate Sole(s: State) {
    forall a, b :: a in s.rfqs && b in s.rfqs
      && s.rfqs[a].order == s.rfqs[b].order && Engaged(s.rfqs[a])
      && Engaged(s.rfqs[b])
      ==> a == b
  }

  ghost predicate Joint(s: State) {
    && Fresh(s) && Sole(s)
    && (forall r :: r in s.rfqs ==> RfqFits(s, r))
    && (forall o :: o in s.orders ==> OrderFits(s, o))
  }

  ghost function LiveRfqs(s: State, o: Id): set<Id> {
    set r | r in s.rfqs && s.rfqs[r].order == o && Live(s.rfqs[r])
  }

  ghost function AwardedRfqs(s: State, o: Id): set<Id> {
    set r | r in s.rfqs && s.rfqs[r].order == o && s.rfqs[r].status == Awarded
  }

  lemma AtMostOne(s: set<Id>)
    requires forall a, b :: a in s && b in s ==> a == b
    ensures |s| <= 1 && (|s| == 1 <==> exists a :: a in s)
  {
    if s != {} {
      var a :| a in s;
      assert s == {a};
    }
  }

  /** The invariant in terms of counts: what an order's status says about its RFQs, and back. */
  lemma JointMeaning(s: State, o: Id)
    requires Joint(s) && o in s.orders
    ensures |LiveRfqs(s, o)| + |AwardedRfqs(s, o)| <= 1
    ensures |LiveRfqs(s, o)| == 1 <==> s.orders[o].status == RfqSent || s.orders[o].status == RfqClosed
    ensures s.orders[o].status == RfqClosed ==> forall r :: r in LiveRfqs(s, o) ==> s.rfqs[r].status == Closed
    ensures |AwardedRfqs(s, o)| == 1 <==> s.orders[o].status == Approved
    ensures s.orders[o].status == Draft || s.orders[o].status == PendingApproval ==>
      forall r :: r in s.rfqs && s.rfqs[r].order == o ==> s.rfqs[r].status == Withdrawn
  {
    var live, awarded := LiveRfqs(s, o), AwardedRfqs(s, o);
    AtMostOne(live);
    AtMostOne(awarded);
    assert OrderFits(s, o);
    assert forall r :: r in live || r in awarded ==> RfqFits(s, r);
    if r :| Backs(s, r, o) {
      assert s.orders[o].status == Approved ==> r in awarded;
      assert s.orders[o].status != Approved ==> r in live;
    }
  }

  // ----- one step -----

  /** Orders and RFQ statuses untouched: nothing about the joint life changes. */
  lemma SameLife(s: State, t: State)
    requires Joint(s) && Fresh(t) && t.orders == s.orders && t.rfqs.Keys == s.rfqs.Keys
    requires forall r :: r in s.rfqs ==> t.rfqs[r].order == s.rfqs[r].order && t.rfqs[r].status == s.rfqs[r].status
    ensures Joint(t)
  {
    forall o | o in t.orders ensures OrderFits(t, o) {
      assert OrderFits(s, o);
      if r :| Backs(s, r, o) { assert Backs(t, r, o); }
    }
    forall r | r in t.rfqs ensures RfqFits(t, r) { assert RfqFits(s, r); }
  }

  /** One RFQ and its order move on together; every other order and RFQ is as before. */
  lemma MoveOn(s: State, t: State, o: Id, r: Id)
    requires Joint(s) && Fresh(t) && o in s.orders
    requires t.orders.Keys == s.orders.Keys && t.rfqs.Keys == s.rfqs.Keys + {r}
    requires t.rfqs[r].order == o && (r in s.rfqs ==> s.rfqs[r].order == o)
    requires forall k :: k in s.orders && k != o ==> t.orders[k] == s.orders[k]
    requires forall k :: k in s.rfqs && k != r ==> t.rfqs[k] == s.rfqs[k]
    requires forall k :: k in s.rfqs && k != r && s.rfqs[k].order == o ==> !Engaged(s.rfqs[k])
    requires RfqFits(t, r)
    requires OrderFits(t, o)
    ensures Joint(t)
  {
    forall k | k in t.orders ensures OrderFits(t, k) {
      if k != o {
        assert OrderFits(s, k);
        if w :| Backs(s, w, k) { assert Backs(t, w, k); }
      }
    }
    forall k | k in t.rfqs ensures RfqFits(t, k) {
      if k != r { assert RfqFits(s, k); }
    }
  }

  lemma JointFanOut(s: State, o: Id, hours: Option<int>, suppliers: seq<Id>)
    requires Joint(s)
    ensures Joint(Apply(s, FanOut(o, hours, suppliers)))
  {
    var step := FanOut(o, hours, suppliers);
    if Exec(s, step).Ok? {
      var t := Apply(s, step);
      assert forall k :: k in s.rfqs && s.rfqs[k].order == o ==> RfqFits(s, k);
      assert Backs(t, s.nextId, o);
      MoveOn(s, t, o, s.nextId);
    }
  }

  lemma JointSend(s: State, r: Id)
    requires Joint(s)
    ensures Joint(Apply(s, SendToPurchaser(r)))
  {
    if Exec(s, SendToPurchaser(r)).Ok? {
      var t, o := Apply(s, SendToPurchaser(r)), s.rfqs[r].order;
      assert RfqFits(s, r);
      assert Backs(t, r, o);
      MoveOn(s, t, o, r);
    }
  }

  lemma JointDecide(s: State, r: Id, approve: bool, pick: nat)
    requires Joint(s)
    ensures Joint(Apply(s, Decide(r, approve, pick)))
  {
    var step := Decide(r, approve, pick);
    if Exec(s, step).Ok? {
      var t, o := Apply(s, step), s.rfqs[r].order;
      assert RfqFits(s, r);
      assert approve ==> Backs(t, r, o);
      MoveOn(s, t, o, r);
    }
  }

  /** The branch of the sweep that closes a pending order never fires. */
  lemma SweepLeavesOrders(s: State)
    requires Joint(s)
    ensures SweptOrders(s, ExpiredIds(s)) == s.orders
  {
    forall r | r in s.rfqs ensures RfqFits(s, r) {}
  }

  lemma JointSweep(s: State)
    requires Joint(s)
    ensures Joint(Apply(s, Sweep))
  {
    SweepLeavesOrders(s);
    var t := Apply(s, Sweep);
    forall r | r in t.rfqs ensures RfqFits(t, r) { assert RfqFits(s, r); }
    forall o | o in t.orders ensures OrderFits(t, o) {
      assert OrderFits(s, o);
      if r :| Backs(s, r, o) { assert Backs(t, r, o); }
    }
  }

  lemma JointCreate(s: State, items: seq<Item>)
    requires Joint(s)
    ensures Joint(Apply(s, CreateOrder(items)))
  {
    var t := Apply(s, CreateOrder(items));
    forall o | o in t.orders ensures OrderFits(t, o) {
      if o in s.orders {
        assert OrderFits(s, o);
        if r :| Backs(s, r, o) { assert Backs(t, r, o); }
      }
    }
    forall r | r in t.rfqs ensures RfqFits(t, r) { assert RfqFits(s, r); }
  }

  /** Submitting an order keeps the invariant exactly when the order is still DRAFT or PENDING_APPROVAL. */
  lemma SubmitOrderExact(s: State, o: Id)
    requires Joint(s) && o in s.orders
    ensures Joint(Apply(s, SubmitOrder(o))) <==> s.orders[o].status == Draft || s.orders[o].status == PendingApproval
  {
    var t := Apply(s, SubmitOrder(o));
    assert OrderFits(s, o);
    if s.orders[o].status == Draft || s.orders[o].status == PendingApproval {
      forall k | k in t.orders ensures OrderFits(t, k) {
        assert OrderFits(s, k);
        if r :| Backs(s, r, k) { assert Backs(t, r, k); }
      }
      forall r | r in t.rfqs ensures RfqFits(t, r) { assert RfqFits(s, r); }
    } else {
      var r :| Backs(s, r, o);
      assert !RfqFits(t, r);
    }
  }

  /** Orders are submitted only before they are sent out. */
  ghost predicate Proper(s: State, step: Step) {
    step.SubmitOrder? && step.order in s.orders ==>
      s.orders[step.order].status == Draft || s.orders[step.order].status == PendingApproval
  }

  lemma JointStep(s: State, step: Step)
    requires Joint(s) && Proper(s, step)
    ensures Joint(Apply(s, step))
  {
    match step
    case CreateOrder(items) => JointCreate(s, items);
    case SubmitOrder(o) => if o in s.orders { SubmitOrderExact(s, o); }
    case FanOut(o, hours, suppliers) => JointFanOut(s, o, hours, suppliers);
    case SendToPurchaser(r) => JointSend(s, r);
    case Decide(r, approve, pick) => JointDecide(s, r, approve, pick);
    case Sweep => JointSweep(s);
    case _ => SameLife(s, Apply(s, step));
  }

  ghost predicate ProperRun(s: State, steps: seq<Step>) {
    forall i :: 0 <= i < |steps| ==> Proper(Run(s, steps[..i]), steps[i])
  }

  /** Joint safety over every run, however the callers and the sweep interleave. */
  lemma {:induction false} JointRun(now: int, strict: bool, steps: seq<Step>)
    requires ProperRun(Empty(now, strict), steps)
    ensures Joint(Run(Empty(now, strict), steps))
  {
    if steps != [] {
      var last := |steps| - 1;
      assert forall i :: 0 <= i < last ==> steps[..last][..i] == steps[..i];
      JointRun(now, strict, steps[..last]);
      JointStep(Run(Empty(now, strict), steps[..last]), steps[last]);
    }
  }

  lemma RunSnoc(s: State, steps: seq<Step>, step: Step)
    ensures Run(s, steps + [step]) == Apply(Run(s, steps), step)
  {
    assert (steps + [step])[..|steps|] == steps;
  }

  lemma ImproperBreaks(s: State, step: Step)
    requires Joint(s) && !Proper(s, step)
    ensures !Joint(Apply(s, step))
  {
    SubmitOrderExact(s, step.order);
  }

  ghost predicate JointThroughout(s: State, steps: seq<Step>) {
    forall i :: 0 <= i <= |steps| ==> Joint(Run(s, steps[..i]))
  }

  lemma JointAlong(now: int, strict: bool, steps: seq<Step>)
    requires ProperRun(Empty(now, strict), steps)
    ensures JointThroughout(Empty(now, strict), steps)
  {
    forall i | 0 <= i <= |steps| ensures Joint(Run(Empty(now, strict), steps[..i])) {
      assert forall j :: 0 <= j < i ==> steps[..i][..j] == steps[..j];
      JointRun(now, strict, steps[..i]);
    }
  }

  /** Along a run the invariant holds in every state exactly when no order is submitted once it is sent out. */
  lemma JointRunExactly(now: int, strict: bool, steps: seq<Step>)
    ensures JointThroughout(Empty(now, strict), steps) <==> ProperRun(Empty(now, strict), steps)
  {
    var s := Empty(now, strict);
    if ProperRun(s, steps) {
      JointAlong(now, strict, steps);
    } else {
      var i :| 0 <= i < |steps| && !Proper(Run(s, steps[..i]), steps[i]);
      assert steps[..i + 1][..i] == steps[..i];
      if Joint(Run(s, steps[..i])) { ImproperBreaks(Run(s, steps[..i]), steps[i]); }
      assert !Joint(Run(s, steps[..i])) || !Joint(Run(s, steps[..i + 1]));
    }
  }

  /** Resubmitting an order already sent out lets two RFQs run at once. */
  lemma ResubmissionDoublesRfqs(now: int, strict: bool)
    ensures var sent := FanOut(0, None, [5]);
            LiveRfqs(Run(Empty(now, strict), [CreateOrder([]), sent, SubmitOrder(0), sent]), 0) == {1, 2}
  {
    var s, sent := Empty(now, strict), FanOut(0, None, [5]);
    var a, b := [CreateOrder([])], [CreateOrder([]), sent];
    var c := b + [SubmitOrder(0)];
    RunSnoc(s, [], CreateOrder([]));
    RunSnoc(s, a, sent);
    RunSnoc(s, b, SubmitOrder(0));
    RunSnoc(s, c, sent);
    assert [] + [CreateOrder([])] == a && a + [sent] == b;
    assert c + [sent] == [CreateOrder([]), sent, SubmitOrder(0), sent];
    assert Run(s, a) == Apply(s, CreateOrder([]));
  }

  // ----- what is decided stays decided -----

  function Rank(status: RfqStatus): nat {
    match status
    case Sent => 0
    case Closed => 1
    case _ => 2
  }

  /** What a later state keeps of an RFQ. */
  ghost predicate Keeps(a: Rfq, b: Rfq) {
    && b.order == a.order && b.items == a.items && b.deadline == a.deadline
    && Rank(a.status) <= Rank(b.status)
    && (a.status != Sent ==>
          b.markup == a.markup
          && forall q :: q in b.quotes ==> q in a.quotes || q.markedUp == q.customerFacing == q.bid.total)
    && (Rank(a.status) == 2 ==> b == a)
  }

  ghost predicate Later(s: State, t: State) {
    && s.now <= t.now
    && (forall r :: r in s.rfqs ==> r in t.rfqs && Keeps(s.rfqs[r], t.rfqs[r]))
    && (forall r :: r in s.rfqs && s.rfqs[r].status != Sent && s.rfqs[r].deadline < s.now
          ==> t.rfqs[r].quotes == s.rfqs[r].quotes)
  }

  lemma {:induction false} WithoutSubset(quotes: seq<Quote>, supplier: Id)
    ensures forall q :: q in Without(quotes, supplier) <==> q in quotes && q.bid.supplier != supplier
  {
    if quotes != [] {
      var last := |quotes| - 1;
      WithoutSubset(quotes[..last], supplier);
      assert quotes == quotes[..last] + [quotes[last]];
    }
  }

  lemma LaterSubmission(s: State, step: Step)
    requires Fresh(s) && step.SubmitQuote?
    ensures Fresh(Apply(s, step)) && Later(s, Apply(s, step))
  {
    if Exec(s, step).Ok? { WithoutSubset(s.rfqs[step.rfq].quotes, step.supplier); }
  }

  lemma KeepsOther(s: State, step: Step, r: Id)
    requires Fresh(s) && !step.SubmitQuote? && r in s.rfqs
    ensures r in Apply(s, step).rfqs && Keeps(s.rfqs[r], Apply(s, step).rfqs[r])
    ensures s.rfqs[r].status != Sent ==> Apply(s, step).rfqs[r].quotes == s.rfqs[r].quotes
  {
  }

  lemma LaterOther(s: State, step: Step)
    requires Fresh(s) && !step.SubmitQuote?
    ensures Fresh(Apply(s, step)) && Later(s, Apply(s, step))
  {
    forall r | r in s.rfqs
      ensures r in Apply(s, step).rfqs && Keeps(s.rfqs[r], Apply(s, step).rfqs[r])
      ensures s.rfqs[r].status != Sent ==> Apply(s, step).rfqs[r].quotes == s.rfqs[r].quotes {
      KeepsOther(s, step, r);
    }
  }

  lemma LaterStep(s: State, step: Step)
    requires Fresh(s)
    ensures Fresh(Apply(s, step)) && Later(s, Apply(s, step))
  {
    if step.SubmitQuote? { LaterSubmission(s, step); } else { LaterOther(s, step); }
  }

  lemma LaterTransitive(s: State, t: State, u: State)
    requires Later(s, t) && Later(t, u)
    ensures Later(s, u)
  {
    forall r | r in s.rfqs ensures Keeps(s.rfqs[r], u.rfqs[r]) {}
  }

  /**
   Over every run an RFQ's status never goes back; once awarded or withdrawn the whole RFQ with its
   quotes is frozen; once closed its markup is fixed and no quote is ever marked up again; closed by
   its deadline, it takes no further quote.
   */
  lemma {:induction false} LaterRun(s: State, steps: seq<Step>)
    requires Fresh(s)
    ensures Fresh(Run(s, steps)) && Later(s, Run(s, steps))
  {
    if steps != [] {
      var last := |steps| - 1;
      LaterRun(s, steps[..last]);
      LaterStep(Run(s, steps[..last]), steps[last]);
      LaterTransitive(s, Run(s, steps[..last]), Run(s, steps));
    }
  }

  // ----- how long an RFQ is open -----

  lemma FannedOut(s: State, o: Id, hours: Option<int>, suppliers: seq<Id>)
    requires Exec(s, FanOut(o, hours, suppliers)).Ok?
    ensures var t := Apply(s, FanOut(o, hours, suppliers));
            && s.nextId in t.rfqs && t.now == s.now && t.rfqs[s.nextId].status == Sent
            && t.rfqs[s.nextId].deadline == s.now + if hours.None? || hours.value == 0 then 48 else hours.value
  {
  }

  lemma SweptLater(s: State, r: Id, elapsed: nat)
    requires r in s.rfqs && s.rfqs[r].status == Sent
    ensures var t := Apply(Apply(s, Wait(elapsed)), Sweep);
            r in t.rfqs && t.rfqs[r].status == if s.now + elapsed > s.rfqs[r].deadline then Closed else Sent
  {
  }

  /** An RFQ that is sent out is still open to a sweep exactly as many hours later as it was given, or 48. */
  lemma OpenExactly(s: State, o: Id, hours: Option<int>, suppliers: seq<Id>, elapsed: nat)
    requires Exec(s, FanOut(o, hours, suppliers)).Ok?
    ensures var t := Apply(Apply(Apply(s, FanOut(o, hours, suppliers)), Wait(elapsed)), Sweep);
            && s.nextId in t.rfqs && (t.rfqs[s.nextId].status == Sent || t.rfqs[s.nextId].status == Closed)
            && (t.rfqs[s.nextId].status == Sent
                <==> elapsed <= if hours.None? || hours.value == 0 then 48 else hours.value)
  {
    FannedOut(s, o, hours, suppliers);
    SweptLater(Apply(s, FanOut(o, hours, suppliers)), s.nextId, elapsed);
  }
}
