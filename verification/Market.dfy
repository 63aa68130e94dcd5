/**
 The simplified marketplace as functions on values: what each service call does to the
 stored orders and RFQs. Money counts units of 10^-4, markup percentages as stored count
 hundredths. An exception rolls the session back, so a failed call is an Err and no state.
 */
module Market {
  import opened Wrappers
  import opened Rounding

  type Id = nat

  const RFQ_RESPONSE_TIMEOUT_HOURS := 48

  datatype OrderStatus = Draft | PendingApproval | RfqSent | RfqClosed | Approved | Rejected | Cancelled
  datatype RfqStatus = Sent | Closed | Awarded | Withdrawn  // Withdrawn: RFQStatus.CANCELLED

  /** A requested line; product is what its product_id or IMPA code resolves to. */
  datatype Item = Item(quantity: int, product: Option<Id>)

  datatype LineStatus = Full | Partial | NoBid | Unrecognised
  /** A supplier's answer; item is the position of the RFQ item it names. */
  datatype Line = Line(item: Option<nat>, status: LineStatus, unitPrice: Option<real>, quotedQuantity: Option<int>)

  datatype QuoteItem =
    QuoteItem(product: Id, quantity: int, unitPrice: real, lineTotal: int,
              status: LineStatus, quotedQuantity: Option<int>)
  datatype Bid = Bid(supplier: Id, items: seq<QuoteItem>, total: int, leadDays: int)
  datatype Quote = Quote(id: Id, bid: Bid, markedUp: int, customerFacing: int)

  datatype Rfq = Rfq(
    order: Id, status: RfqStatus, items: seq<Item>, deadline: int, markup: int,
    invited: nat, invitees: seq<Id>, responded: int, quotes: seq<Quote>, awarded: Option<Id>)
  datatype Order = Order(status: OrderStatus, items: seq<Item>)

  /** The database and the clock; strict says whether the table check on quoted_quantity is deployed. */
  datatype State = State(orders: map<Id, Order>, rfqs: map<Id, Rfq>, nextId: Id, now: int, strict: bool)

  datatype Error = NotFound | WrongStatus | DeadlinePassed | SupplierInactive | UnknownItem | NoProduct
                 | BadLineStatus | BadPrice | BadQuantity | CheckViolated | MarkupOutOfRange

  datatype Step =
    | CreateOrder(items: seq<Item>)
    | SubmitOrder(order: Id)
    | FanOut(order: Id, hours: Option<int>, suppliers: seq<Id>)  // suppliers: the active ones at the port
    | SubmitQuote(rfq: Id, supplier: Id, active: bool, lines: seq<Line>, leadDays: int)
    | ApplyMarkup(rfq: Id, pct: real)
    | SendToPurchaser(rfq: Id)
    | Decide(rfq: Id, approve: bool, pick: nat)  // pick: which quote an unordered query returns first
    | Sweep
    | Wait(elapsed: nat)

  // ----- pricing a submission -----

  function LineTotal(quantity: int, unitPrice: real): int {
    RoundHalfEven(quantity as real * unitPrice * 10000.0)
  }

  function PriceLine(items: seq<Item>, line: Line): Result<QuoteItem, Error> {
    if line.item.None? || line.item.value >= |items| then Err(UnknownItem)
    else
      var item := items[line.item.value];
      if item.product.None? then Err(NoProduct)
      else match line.status
        case Unrecognised => Err(BadLineStatus)
        case NoBid => Ok(QuoteItem(item.product.value, item.quantity, 0.0, 0, NoBid, Some(0)))
        case _ =>
          if line.unitPrice.None? then Err(BadPrice)
          else
            var quantity := if line.status == Partial then line.quotedQuantity.GetOr(0) else item.quantity;
            if line.status == Partial && !(0 < quantity <= item.quantity) then Err(BadQuantity)
            else
              Ok(QuoteItem(item.product.value, quantity, line.unitPrice.value,
                           LineTotal(quantity, line.unitPrice.value),
                           line.status, if line.status == Partial then Some(quantity) else None))
  }

  /** The priced lines, or the error of the first line that has one. */
  ghost function PriceLines(items: seq<Item>, lines: seq<Line>): Result<seq<QuoteItem>, Error> {
    if lines == [] then Ok([])
    else
      var before := PriceLines(items, lines[..|lines| - 1]);
      if before.Err? then before
      else match PriceLine(items, lines[|lines| - 1])
        case Ok(q) => Ok(before.value + [q])
        case Err(e) => Err(e)
  }

  /** The line's total is quantity times price in units of 10^-4, rounded half to even. */
  predicate Priced(l: QuoteItem) {
    Nearest(l.quantity as real * l.unitPrice * 10000.0, l.lineTotal)
  }

  ghost predicate AllPriced(items: seq<QuoteItem>) {
    forall i :: 0 <= i < |items| ==> Priced(items[i])
  }

  lemma LineIsPriced(items: seq<Item>, line: Line)
    requires PriceLine(items, line).Ok?
    ensures Priced(PriceLine(items, line).value)
  {
  }

  lemma {:induction false} LinesArePriced(items: seq<Item>, lines: seq<Line>)
    requires PriceLines(items, lines).Ok?
    ensures AllPriced(PriceLines(items, lines).value)
  {
    if lines != [] {
      LinesArePriced(items, lines[..|lines| - 1]);
      LineIsPriced(items, lines[|lines| - 1]);
    }
  }

  /** A price of so many whole units times the quantity is the total, without rounding. */
  lemma WholePrices(l: QuoteItem, units: int)
    requires Priced(l) && l.unitPrice * 10000.0 == units as real
    ensures l.lineTotal == l.quantity * units
  {
    assert l.quantity as real * l.unitPrice * 10000.0 == l.quantity as real * (l.unitPrice * 10000.0);
    assert l.quantity as real * units as real == (l.quantity * units) as real;
  }

  /** Quantity times price, summed. */
  ghost function Worth(items: seq<QuoteItem>): real {
    if items == [] then 0.0
    else Worth(items[..|items| - 1]) + items[|items| - 1].quantity as real * items[|items| - 1].unitPrice
  }

  /** A total within half a unit per line of quantity times price. */
  ghost predicate TotalNear(items: seq<QuoteItem>, total: int) {
    Abs(Worth(items) * 10000.0 - total as real) <= 0.5 * |items| as real
  }

  lemma OneMore(worth: real, x: real, total: int, n: int, lines: nat)
    requires Abs(worth * 10000.0 - total as real) <= 0.5 * lines as real && Nearest(x * 10000.0, n)
    ensures Abs((worth + x) * 10000.0 - (total + n) as real) <= 0.5 * (lines + 1) as real
  {
    assert (worth + x) * 10000.0 == worth * 10000.0 + x * 10000.0;
  }

  lemma {:induction false} SumIsNear(items: seq<QuoteItem>)
    requires AllPriced(items)
    ensures TotalNear(items, SumTotals(items))
  {
    if items != [] {
      var front, l := items[..|items| - 1], items[|items| - 1];
      SumIsNear(front);
      OneMore(Worth(front), l.quantity as real * l.unitPrice, SumTotals(front), l.lineTotal, |front|);
    }
  }

  function SumTotals(items: seq<QuoteItem>): int {
    if items == [] then 0 else SumTotals(items[..|items| - 1]) + items[|items| - 1].lineTotal
  }

  /** CheckConstraint ck_quote_items_quoted_qty_positive. */
  predicate Storable(item: QuoteItem) {
    item.quotedQuantity.None? || item.quotedQuantity.value > 0
  }

  predicate AllStorable(items: seq<QuoteItem>) {
    forall i :: 0 <= i < |items| ==> Storable(items[i])
  }

  /** The quotes of every other supplier. */
  function Without(quotes: seq<Quote>, supplier: Id): seq<Quote> {
    if quotes == [] then []
    else
      var rest := Without(quotes[..|quotes| - 1], supplier);
      if quotes[|quotes| - 1].bid.supplier == supplier then rest else rest + [quotes[|quotes| - 1]]
  }

  predicate Quoted(quotes: seq<Quote>, supplier: Id) {
    exists i :: 0 <= i < |quotes| && quotes[i].bid.supplier == supplier
  }

  // ----- markup -----

  function Factor(pct: real): real {
    1.0 + pct / 100.0
  }

  function Exact(total: int, factor: real): real {
    total as real * factor
  }

  /** round(total * (1 + pct / 100), 4) */
  function MarkedUp(total: int, pct: real): int {
    RoundHalfEven(Exact(total, Factor(pct)))
  }

  /** Numeric(5, 2): hundredths of a percent, ties away from zero. */
  function StoredPct(pct: real): int {
    (pct * 100.0 + 0.5).Floor
  }

  function MarkQuote(q: Quote, pct: real): Quote {
    q.(markedUp := MarkedUp(q.bid.total, pct), customerFacing := MarkedUp(q.bid.total, pct))
  }

  function MarkQuotes(quotes: seq<Quote>, pct: real): (r: seq<Quote>)
    ensures |r| == |quotes|
  {
    seq(|quotes|, i requires 0 <= i < |quotes| => MarkQuote(quotes[i], pct))
  }

  // ----- the sweep -----

  predicate Expired(rfq: Rfq, now: int) {
    rfq.status == Sent && rfq.deadline < now
  }

  function ExpiredIds(s: State): set<Id> {
    set r | r in s.rfqs && Expired(s.rfqs[r], s.now)
  }

  /** The RFQs once those in the set are closed. */
  ghost function SweptRfqs(s: State, visited: set<Id>): map<Id, Rfq> {
    map r | r in s.rfqs :: if r in visited then s.rfqs[r].(status := Closed) else s.rfqs[r]
  }

  ghost predicate Awaits(s: State, visited: set<Id>, o: Id)
    requires o in s.orders
  {
    s.orders[o].status == PendingApproval && exists r :: r in visited && r in s.rfqs && s.rfqs[r].order == o
  }

  /** The orders once the RFQs in the set are closed: one awaiting approval is closed with its RFQ. */
  ghost function SweptOrders(s: State, visited: set<Id>): map<Id, Order> {
    map o | o in s.orders :: if Awaits(s, visited, o) then s.orders[o].(status := RfqClosed) else s.orders[o]
  }

  // ----- one service call -----

  function WithRfq(s: State, r: Id, rfq: Rfq): State {
    s.(rfqs := s.rfqs[r := rfq])
  }

  function WithOrderStatus(s: State, o: Id, status: OrderStatus): State {
    if o in s.orders then s.(orders := s.orders[o := s.orders[o].(status := status)]) else s
  }

  /** Hours given, unless none or zero are. */
  function DeadlineHours(hours: Option<int>): int {
    if hours.None? || hours.value == 0 then RFQ_RESPONSE_TIMEOUT_HOURS else hours.value
  }

  ghost function DoFanOut(s: State, o: Id, hours: Option<int>, suppliers: seq<Id>): Result<State, Error> {
    if o !in s.orders then Err(NotFound)
    else if s.orders[o].status != Draft && s.orders[o].status != PendingApproval then Err(WrongStatus)
    else
      var deadline := s.now + DeadlineHours(hours);
      var rfq := Rfq(o, Sent, s.orders[o].items, deadline, 0, |suppliers|, suppliers, 0, [], None);
      Ok(WithOrderStatus(WithRfq(s, s.nextId, rfq), o, RfqSent).(nextId := s.nextId + 1))
  }

  /** The RFQ with the supplier's earlier quote replaced by the new one, or the error that prevents it. */
  ghost function Requoted(rfq: Rfq, supplier: Id, lines: seq<Line>, leadDays: int,
                         id: Id, strict: bool)
    : Result<Rfq, Error> {
    match PriceLines(rfq.items, lines)
    case Err(e) => Err(e)
    case Ok(items) =>
      if strict && !AllStorable(items) then Err(CheckViolated)
      else
        var total := SumTotals(items);
        var others := Without(rfq.quotes, supplier);
        var kept := if Quoted(rfq.quotes, supplier) then Clamp(rfq.responded - 1) else rfq.responded;
        var quote := Quote(id, Bid(supplier, items, total, leadDays), total, total);
        Ok(rfq.(quotes := others + [quote], responded := kept + 1))
  }

  ghost function DoSubmitQuote(s: State, r: Id, supplier: Id, active: bool,
                              lines: seq<Line>, leadDays: int)
    : Result<State, Error> {
    if r !in s.rfqs then Err(NotFound)
    else
      var rfq := s.rfqs[r];
      if rfq.status != Sent && rfq.status != Closed then Err(WrongStatus)
      else if s.now > rfq.deadline then Err(DeadlinePassed)
      else if !active then Err(SupplierInactive)
      else match Requoted(rfq, supplier, lines, leadDays, s.nextId, s.strict)
        case Err(e) => Err(e)
        case Ok(requoted) => Ok(WithRfq(s, r, requoted).(nextId := s.nextId + 1))
  }

  /** max(0, n) */
  function Clamp(n: int): int {
    if n < 0 then 0 else n
  }

  ghost function DoApplyMarkup(s: State, r: Id, pct: real): Result<State, Error> {
    if r !in s.rfqs then Err(NotFound)
    else if s.rfqs[r].status != Sent then Err(WrongStatus)
    else if !(0.0 <= pct <= 100.0) then Err(MarkupOutOfRange)
    else Ok(WithRfq(s, r, s.rfqs[r].(markup := StoredPct(pct), quotes := MarkQuotes(s.rfqs[r].quotes, pct))))
  }

  ghost function DoSendToPurchaser(s: State, r: Id): Result<State, Error> {
    if r !in s.rfqs then Err(NotFound)
    else if s.rfqs[r].status != Sent then Err(WrongStatus)
    else Ok(WithOrderStatus(WithRfq(s, r, s.rfqs[r].(status := Closed)), s.rfqs[r].order, RfqClosed))
  }

  ghost function DoDecide(s: State, r: Id, approve: bool, pick: nat): Result<State, Error> {
    if r !in s.rfqs then Err(NotFound)
    else
      var rfq := s.rfqs[r];
      if rfq.status != Closed then Err(WrongStatus)
      else if rfq.order !in s.orders then Err(NotFound)
      else if !approve then Ok(WithOrderStatus(WithRfq(s, r, rfq.(status := Withdrawn)), rfq.order, Draft))
      else
        var winner := if pick < |rfq.quotes| then Some(rfq.quotes[pick].id)
                      else if |rfq.quotes| > 0 then Some(rfq.quotes[0].id) else None;
        var decided := rfq.(status := Awarded, awarded := if winner.Some? then winner else rfq.awarded);
        Ok(WithOrderStatus(WithRfq(s, r, decided), rfq.order, Approved))
  }

  /** Quantities are positive by the request's validation and by the table check ck_order_items_qty_positive. */
  predicate Positive(items: seq<Item>) {
    forall i :: 0 <= i < |items| ==> items[i].quantity > 0
  }

  ghost function DoCreateOrder(s: State, items: seq<Item>): Result<State, Error> {
    if !Positive(items) then Err(BadQuantity)
    else Ok(s.(orders := s.orders[s.nextId := Order(Draft, items)], nextId := s.nextId + 1))
  }

  /** The submit route sets the status whatever it was before. */
  ghost function DoSubmitOrder(s: State, o: Id): Result<State, Error> {
    if o !in s.orders then Err(NotFound) else Ok(WithOrderStatus(s, o, PendingApproval))
  }

  ghost function Exec(s: State, step: Step): Result<State, Error> {
    match step
    case CreateOrder(items) => DoCreateOrder(s, items)
    case SubmitOrder(o) => DoSubmitOrder(s, o)
    case FanOut(o, hours, suppliers) => DoFanOut(s, o, hours, suppliers)
    case SubmitQuote(r, supplier, active, lines, leadDays) => DoSubmitQuote(s, r, supplier, active, lines, leadDays)
    case ApplyMarkup(r, pct) => DoApplyMarkup(s, r, pct)
    case SendToPurchaser(r) => DoSendToPurchaser(s, r)
    case Decide(r, approve, pick) => DoDecide(s, r, approve, pick)
    case Sweep => Ok(s.(rfqs := SweptRfqs(s, ExpiredIds(s)), orders := SweptOrders(s, ExpiredIds(s))))
    case Wait(elapsed) => Ok(s.(now := s.now + elapsed))
  }

  /** A call that raises leaves the state as it was. */
  ghost function Apply(s: State, step: Step): State {
    match Exec(s, step)
    case Ok(t) => t
    case Err(_) => s
  }

  ghost function Run(s: State, steps: seq<Step>): State {
    if steps == [] then s else Apply(Run(s, steps[..|steps| - 1]), steps[|steps| - 1])
  }

  function Empty(now: int, strict: bool): State {
    State(map[], map[], 0, now, strict)
  }
}
