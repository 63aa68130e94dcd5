/** The marketplace services as they run: fields updated in place, and rolled back when a check fails. */
module MarketService {
  import opened Wrappers
  import opened Rounding
  import opened Market

  class Service {
    var orders: map<Id, Order>
    var rfqs: map<Id, Rfq>
    var nextId: Id
    var now: int
    const strict: bool

    ghost function View(): State
      reads this
    {
      State(orders, rfqs, nextId, now, strict)
    }

    constructor (now: int, strict: bool)
      ensures View() == Empty(now, strict)
    {
      orders, rfqs, nextId, this.now, this.strict := map[], map[], 0, now, strict;
    }

    method SubmitOrder(o: Id) returns (r: Result<(), Error>)
      modifies this
      ensures Exec(old(View()), Step.SubmitOrder(o)) == if r.Ok? then Ok(View()) else Err(r.error)
      ensures r.Err? ==> View() == old(View())
    {
      if o !in orders { return Err(NotFound); }
      orders := orders[o := orders[o].(status := PendingApproval)];
      return Ok(());
    }

    method FanOutRfq(o: Id, hours: Option<int>, suppliers: seq<Id>) returns (r: Result<Id, Error>)
      modifies this
      ensures Exec(old(View()), FanOut(o, hours, suppliers)) == if r.Ok? then Ok(View()) else Err(r.error)
      ensures r.Err? ==> View() == old(View())
      ensures r.Ok? ==> r.value == old(nextId) && r.value in rfqs
      ensures r.Ok? ==> rfqs[r.value].deadline == now + if hours.None? || hours.value == 0 then 48 else hours.value
    {
      if o !in orders { return Err(NotFound); }
      var order := orders[o];
      if order.status != Draft && order.status != PendingApproval { return Err(WrongStatus); }
      var deadline := now + DeadlineHours(hours);
      var rfq := Rfq(o, Sent, [], deadline, 0, 0, [], 0, [], None);
      for i := 0 to |order.items|
        invariant rfq == Rfq(o, Sent, order.items[..i], deadline, 0, 0, [], 0, [], None)
      {
        rfq := rfq.(items := rfq.items + [order.items[i]]);
      }
      assert order.items[..|order.items|] == order.items;
      var id := nextId;
      nextId := nextId + 1;
      rfqs := rfqs[id := rfq.(invited := |suppliers|, invitees := suppliers)];
      orders := orders[o := order.(status := RfqSent)];
      return Ok(id);
    }

    /** Deletes the supplier's earlier quote from a list of quotes. */
    method DropQuote(quotes: seq<Quote>, supplier: Id) returns (kept: seq<Quote>, found: bool)
      ensures kept == Without(quotes, supplier) && found == Quoted(quotes, supplier)
    {
      kept, found := [], false;
      for i := 0 to |quotes|
        invariant kept == Without(quotes[..i], supplier) && found == Quoted(quotes[..i], supplier)
      {
        assert quotes[..i + 1][..i] == quotes[..i];
        if quotes[i].bid.supplier == supplier {
          found := true;
          assert quotes[..i + 1][i].bid.supplier == supplier;
        } else {
          kept := kept + [quotes[i]];
          assert forall k :: 0 <= k < i ==> quotes[..i + 1][k] == quotes[..i][k];
        }
      }
      assert quotes[..|quotes|] == quotes;
    }

    /** The line loop: prices lines until one fails, adding up the subtotal. */
    method PriceForm(items: seq<Item>, lines: seq<Line>) returns (r: Result<(seq<QuoteItem>, int), Error>)
      ensures match PriceLines(items, lines)
              case Ok(qs) => r == Ok((qs, SumTotals(qs)))
              case Err(e) => r == Err(e)
      ensures r.Ok? ==> AllPriced(r.value.0) && TotalNear(r.value.0, r.value.1)
    {
      var quoteItems: seq<QuoteItem> := [];
      var subtotal := 0;
      for i := 0 to |lines|
        invariant PriceLines(items, lines[..i]) == Ok(quoteItems) && subtotal == SumTotals(quoteItems)
      {
        assert lines[..i + 1][..i] == lines[..i];
        var line := lines[i];
        var priced := PriceLine(items, line);
        if priced.Err? {
          FirstError(items, lines, i + 1);
          return Err(priced.error);
        }
        subtotal := subtotal + priced.value.lineTotal;
        assert (quoteItems + [priced.value])[..|quoteItems|] == quoteItems;
        quoteItems := quoteItems + [priced.value];
      }
      assert lines[..|lines|] == lines;
      LinesArePriced(items, lines);
      SumIsNear(quoteItems);
      return Ok((quoteItems, subtotal));
    }

    lemma {:induction false} FirstError(items: seq<Item>, lines: seq<Line>, k: nat)
      requires k <= |lines| && PriceLines(items, lines[..k]).Err?
      ensures PriceLines(items, lines) == PriceLines(items, lines[..k])
      decreases |lines|
    {
      if k < |lines| {
        assert lines[..|lines| - 1][..k] == lines[..k];
        FirstError(items, lines[..|lines| - 1], k);
      } else {
        assert lines[..k] == lines;
      }
    }

    method SupplierSubmitQuote(id: Id, supplier: Id, active: bool, lines: seq<Line>, leadDays: int)
      returns (r: Result<Id, Error>)
      modifies this
      ensures Exec(old(View()), SubmitQuote(id, supplier, active, lines, leadDays))
           == if r.Ok? then Ok(View()) else Err(r.error)
      ensures r.Err? ==> View() == old(View())
      ensures r.Ok? ==> r.value == old(nextId)
    {
      if id !in rfqs { return Err(NotFound); }
      if rfqs[id].status != Sent && rfqs[id].status != Closed { return Err(WrongStatus); }
      if now > rfqs[id].deadline { return Err(DeadlinePassed); }
      if !active { return Err(SupplierInactive); }
      r := Requote(id, supplier, lines, leadDays);
      if r.Ok? { nextId := nextId + 1; }
    }

    /** The writes of a submission: the earlier quote goes first, and comes back if the new one fails. */
    method Requote(id: Id, supplier: Id, lines: seq<Line>, leadDays: int) returns (r: Result<Id, Error>)
      requires id in rfqs
      modifies `rfqs
      ensures match Requoted(old(rfqs)[id], supplier, lines, leadDays, nextId, strict)
              case Err(e) => r == Err(e) && rfqs == old(rfqs)
              case Ok(requoted) => r == Ok(nextId) && rfqs == old(rfqs)[id := requoted]
    {
      var stored := rfqs;  // what a rollback restores
      DropEarlier(id, supplier);
      var priced := PriceForm(rfqs[id].items, lines);
      if priced.Err? {
        rfqs := stored;
        return Err(priced.error);
      }
      var (items, subtotal) := priced.value;
      if strict && !AllStorable(items) {
        rfqs := stored;
        return Err(CheckViolated);
      }
      var quote := Quote(nextId, Bid(supplier, items, subtotal, leadDays), subtotal, subtotal);
      rfqs := rfqs[id := rfqs[id].(quotes := rfqs[id].quotes + [quote], responded := rfqs[id].responded + 1)];
      return Ok(quote.id);
    }

    /** Takes the supplier's earlier quote, if there is one, out of the RFQ and out of its count. */
    method DropEarlier(id: Id, supplier: Id)
      requires id in rfqs
      modifies `rfqs
      ensures var rfq := old(rfqs)[id];
              rfqs == old(rfqs)[id := rfq.(quotes := Without(rfq.quotes, supplier),
                                           responded := if Quoted(rfq.quotes, supplier) then Clamp(rfq.responded - 1)
                                                        else rfq.responded)]
    {
      var kept, found := DropQuote(rfqs[id].quotes, supplier);
      if found {
        rfqs := rfqs[id := rfqs[id].(quotes := kept, responded := Clamp(rfqs[id].responded - 1))];
      } else {
        NothingToDrop(rfqs[id].quotes, supplier);
      }
    }

    lemma {:induction false} NothingToDrop(quotes: seq<Quote>, supplier: Id)
      requires !Quoted(quotes, supplier)
      ensures Without(quotes, supplier) == quotes
    {
      if quotes != [] {
        var last := |quotes| - 1;
        assert forall i :: 0 <= i < last ==> quotes[..last][i] == quotes[i];
        NothingToDrop(quotes[..last], supplier);
      }
    }

    method ApplyMarkup(id: Id, pct: real) returns (r: Result<(), Error>)
      modifies this
      ensures Exec(old(View()), Step.ApplyMarkup(id, pct)) == if r.Ok? then Ok(View()) else Err(r.error)
      ensures r.Err? ==> View() == old(View())
    {
      if id !in rfqs { return Err(NotFound); }
      if rfqs[id].status != Sent { return Err(WrongStatus); }
      if !(0.0 <= pct <= 100.0) { return Err(MarkupOutOfRange); }
      var quotes := rfqs[id].quotes;
      for i := 0 to |quotes|
        invariant |quotes| == |rfqs[id].quotes|
        invariant forall k :: 0 <= k < i ==> quotes[k] == MarkQuote(rfqs[id].quotes[k], pct)
        invariant forall k :: i <= k < |quotes| ==> quotes[k] == rfqs[id].quotes[k]
      {
        var marked := MarkedUp(quotes[i].bid.total, pct);
        quotes := quotes[i := quotes[i].(markedUp := marked, customerFacing := marked)];
      }
      assert quotes == MarkQuotes(rfqs[id].quotes, pct);
      rfqs := rfqs[id := rfqs[id].(markup := StoredPct(pct), quotes := quotes)];
      return Ok(());
    }

    method SendToPurchaser(id: Id) returns (r: Result<(), Error>)
      modifies this
      ensures Exec(old(View()), Step.SendToPurchaser(id)) == if r.Ok? then Ok(View()) else Err(r.error)
      ensures r.Err? ==> View() == old(View())
    {
      if id !in rfqs { return Err(NotFound); }
      var rfq := rfqs[id];
      if rfq.status != Sent { return Err(WrongStatus); }
      rfqs := rfqs[id := rfq.(status := Closed)];
      if rfq.order in orders {
        orders := orders[rfq.order := orders[rfq.order].(status := RfqClosed)];
      }
      return Ok(());
    }

    method PurchaserDecide(id: Id, approve: bool, pick: nat) returns (r: Result<(), Error>)
      modifies this
      ensures Exec(old(View()), Decide(id, approve, pick)) == if r.Ok? then Ok(View()) else Err(r.error)
      ensures r.Err? ==> View() == old(View())
    {
      if id !in rfqs { return Err(NotFound); }
      var rfq := rfqs[id];
      if rfq.status != Closed { return Err(WrongStatus); }
      if rfq.order !in orders { return Err(NotFound); }
      var order := orders[rfq.order];
      if !approve {
        rfqs := rfqs[id := rfq.(status := Withdrawn)];
        orders := orders[rfq.order := order.(status := Draft)];
        return Ok(());
      }
      rfq := rfq.(status := Awarded);
      if |rfq.quotes| > 0 {
        var first := if pick < |rfq.quotes| then rfq.quotes[pick] else rfq.quotes[0];
        rfq := rfq.(awarded := Some(first.id));
      }
      rfqs := rfqs[id := rfq];
      orders := orders[rfq.order := order.(status := Approved)];
      return Ok(());
    }

    /** Visiting one more expired RFQ. */
    lemma SweepOne(s: State, visited: set<Id>, r: Id)
      requires r in s.rfqs && visited <= s.rfqs.Keys
      ensures SweptRfqs(s, visited + {r}) == SweptRfqs(s, visited)[r := s.rfqs[r].(status := Closed)]
      ensures var o := s.rfqs[r].order; var before := SweptOrders(s, visited);
              SweptOrders(s, visited + {r}) ==
                if o in before && before[o].status == PendingApproval
                then before[o := before[o].(status := RfqClosed)]
                else before
    {
      var o := s.rfqs[r].order;
      forall k | k in s.orders && k != o ensures Awaits(s, visited + {r}, k) == Awaits(s, visited, k) {
        if Awaits(s, visited, k) {
          var w :| w in visited && w in s.rfqs && s.rfqs[w].order == k;
          assert w in visited + {r};
        }
      }
      if o in s.orders {
        assert r in visited + {r};
        assert Awaits(s, visited + {r}, o) <==> s.orders[o].status == PendingApproval;
      }
    }

    lemma SweepNone(s: State)
      ensures SweptRfqs(s, {}) == s.rfqs && SweptOrders(s, {}) == s.orders
    {
    }

    /** How far a sweep begun in state s has come. */
    ghost predicate SweptTo(s: State, visited: set<Id>)
      reads this
    {
      View() == s.(rfqs := SweptRfqs(s, visited), orders := SweptOrders(s, visited))
    }

    /** One round of the sweep loop. */
    method CloseExpired(r: Id, ghost s: State, ghost visited: set<Id>)
      requires r in s.rfqs && r !in visited && visited <= s.rfqs.Keys
      requires SweptTo(s, visited)
      modifies `rfqs, `orders
      ensures SweptTo(s, visited + {r})
    {
      SweepOne(s, visited, r);
      var rfq := rfqs[r];
      assert rfq == s.rfqs[r];
      rfqs := rfqs[r := rfq.(status := Closed)];
      if rfq.order in orders && orders[rfq.order].status == PendingApproval {
        orders := orders[rfq.order := orders[rfq.order].(status := RfqClosed)];
      }
    }

    method FindExpired() returns (expired: set<Id>)
      ensures expired == ExpiredIds(View())
    {
      expired := set r | r in rfqs && Expired(rfqs[r], now);
    }

    /** What the sweep makes of one RFQ. */
    static ghost function Swept(rfq: Rfq, now: int): Rfq {
      if rfq.status == Sent && rfq.deadline < now then rfq.(status := Closed) else rfq
    }

    lemma AllSwept(s: State)
      ensures forall r :: r in s.rfqs ==> SweptRfqs(s, ExpiredIds(s))[r] == Swept(s.rfqs[r], s.now)
    {
    }

    /** The background sweep visits the expired RFQs one by one, in whatever order the query gives. */
    method SweepRfqDeadlines() returns (progressed: nat)
      modifies this
      ensures Exec(old(View()), Sweep) == Ok(View())
      ensures progressed == |ExpiredIds(old(View()))|
      ensures forall r :: r in old(rfqs) ==> r in rfqs && rfqs[r] == Swept(old(rfqs)[r], now)
    {
      ghost var s := View();
      ghost var visited: set<Id> := {};
      var expired := FindExpired();
      SweepNone(s);
      progressed := 0;
      while expired != {}
        invariant visited !! expired && visited + expired == ExpiredIds(s) && progressed == |visited|
        invariant SweptTo(s, visited)
        decreases expired
      {
        var r :| r in expired;
        CloseExpired(r, s, visited);
        expired, visited := expired - {r}, visited + {r};
        progressed := progressed + 1;
      }
      assert visited == ExpiredIds(s);
      AllSwept(s);
    }
  }
}
