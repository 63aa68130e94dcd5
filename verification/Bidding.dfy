/**
 * A simulated supplier's bid (market_sim.SupplierAgent.generate_bid). The random jitter is an argument; unit prices and
 * totals of a bid count units of 10^-4. Counter-offer terms cap the price of a product or the lead time.
 */
module Bidding {
  import opened Wrappers
  import opened Rounding

  const JITTER_BAND := 0.02
  const MIN_LEAD_DAYS := 1

  datatype Strategy = Aggressive | Balanced | Premium | SlowButCheap {
    function PriceShift(): real {
      match this
      case Aggressive => -0.10
      case Balanced => -0.05
      case Premium => 0.08
      case SlowButCheap => -0.18
    }

    function LeadShift(): int {
      match this
      case Aggressive => -2
      case Balanced => 0
      case Premium => 3
      case SlowButCheap => 7
    }
  }

  datatype Item = Item(product: string, quantity: int)
  datatype Agent = Agent(basePrices: map<string, real>, baseLead: int, strategy: Strategy)
  datatype Terms = Terms(leadDays: Option<int>, caps: map<string, real>)
  datatype Line = Line(product: string, quantity: int, unitPrice: int)
  datatype Bid = Bid(lines: seq<Line>, leadDays: int, baseTotal: int, adjustedTotal: int)

  /** No counter-offer. */
  const Free := Terms(None, map[])

  function Multiplier(agent: Agent, jitter: real): real {
    1.0 + agent.strategy.PriceShift() + jitter
  }

  predicate Carried(agent: Agent, item: Item) {
    item.product in agent.basePrices && agent.basePrices[item.product] > 0.0
  }

  /** What the agent asks for one piece when nothing is capped. */
  function OwnPrice(agent: Agent, jitter: real, product: string): real
    requires product in agent.basePrices
  {
    agent.basePrices[product] * Multiplier(agent, jitter)
  }

  function Amount(price: real, quantity: int): real {
    price * quantity as real
  }

  function Target(agent: Agent, terms: Terms, jitter: real, item: Item): real
    requires Carried(agent, item)
  {
    var price := OwnPrice(agent, jitter, item.product);
    if item.product in terms.caps && terms.caps[item.product] < price then terms.caps[item.product] else price
  }

  function LineOf(agent: Agent, terms: Terms, jitter: real, item: Item): Line
    requires Carried(agent, item)
  {
    Line(item.product, item.quantity, RoundHalfEven(Target(agent, terms, jitter, item) * 10000.0))
  }

  function Lines(agent: Agent, terms: Terms, jitter: real, items: seq<Item>): seq<Line> {
    if items == [] then []
    else
      var item := items[|items| - 1];
      Lines(agent, terms, jitter, items[..|items| - 1])
      + if Carried(agent, item) then [LineOf(agent, terms, jitter, item)] else []
  }

  function Base(agent: Agent, items: seq<Item>): real {
    if items == [] then 0.0
    else
      var item := items[|items| - 1];
      Base(agent, items[..|items| - 1])
      + if Carried(agent, item) then Amount(agent.basePrices[item.product], item.quantity) else 0.0
  }

  function Adjusted(agent: Agent, terms: Terms, jitter: real, items: seq<Item>): real {
    if items == [] then 0.0
    else
      var item := items[|items| - 1];
      Adjusted(agent, terms, jitter, items[..|items| - 1])
      + if Carried(agent, item) then Amount(Target(agent, terms, jitter, item), item.quantity) else 0.0
  }

  function Lead(agent: Agent, terms: Terms): (days: int)
    ensures days >= MIN_LEAD_DAYS
  {
    var own := AtLeastOne(agent.baseLead + agent.strategy.LeadShift());
    if terms.leadDays.None? then own
    else AtLeastOne(if terms.leadDays.value < own then terms.leadDays.value else own)
  }

  function AtLeastOne(days: int): int {
    if days > MIN_LEAD_DAYS then days else MIN_LEAD_DAYS
  }

  method GenerateBid(agent: Agent, terms: Terms, jitter: real, items: seq<Item>) returns (bid: Bid)
    ensures bid.lines == Lines(agent, terms, jitter, items) && bid.leadDays == Lead(agent, terms)
    ensures bid.baseTotal == RoundHalfEven(Base(agent, items) * 10000.0)
    ensures bid.adjustedTotal == RoundHalfEven(Adjusted(agent, terms, jitter, items) * 10000.0)
  {
    var lines, base, adjusted := [], 0.0, 0.0;
    for i := 0 to |items|
      invariant lines == Lines(agent, terms, jitter, items[..i])
      invariant base == Base(agent, items[..i]) && adjusted == Adjusted(agent, terms, jitter, items[..i])
    {
      assert items[..i + 1][..i] == items[..i];
      var item := items[i];
      if item.product !in agent.basePrices || agent.basePrices[item.product] <= 0.0 { continue; }
      var price := OwnPrice(agent, jitter, item.product);
      if item.product in terms.caps && terms.caps[item.product] < price { price := terms.caps[item.product]; }
      assert price == Target(agent, terms, jitter, item);
      lines := lines + [Line(item.product, item.quantity, RoundHalfEven(price * 10000.0))];
      base := base + Amount(agent.basePrices[item.product], item.quantity);
      adjusted := adjusted + Amount(price, item.quantity);
    }
    assert items[..|items|] == items;
    var lead := AtLeastOne(agent.baseLead + agent.strategy.LeadShift());
    if terms.leadDays.Some? {
      lead := AtLeastOne(if terms.leadDays.value < lead then terms.leadDays.value else lead);
    }
    bid := Bid(lines, lead, RoundHalfEven(base * 10000.0), RoundHalfEven(adjusted * 10000.0));
  }

  // ----- the counter-offer -----

  /** a caps whatever b caps, at least as low. */
  ghost predicate Tighter(a: Terms, b: Terms) {
    && (forall p :: p in b.caps ==> p in a.caps && a.caps[p] <= b.caps[p])
    && (b.leadDays.Some? ==> a.leadDays.Some? && a.leadDays.value <= b.leadDays.value)
  }

  ghost predicate Quantities(items: seq<Item>) {
    forall i :: 0 <= i < |items| ==> items[i].quantity >= 0
  }

  lemma PositiveProduct(a: real, b: real)
    requires 0.0 < a && 0.0 < b
    ensures 0.0 < a * b
  {
  }

  lemma AmountGrows(x: real, y: real, q: int)
    requires x < y && q > 0
    ensures Amount(x, q) < Amount(y, q)
  {
    ScaleApart(q as real, x, y);
    PositiveProduct(y - x, q as real);
  }

  lemma AmountMonotone(x: real, y: real, q: int)
    requires x <= y && q >= 0
    ensures Amount(x, q) <= Amount(y, q)
    ensures Amount(x, q) < Amount(y, q) <==> x < y && q > 0
  {
    if x < y && q > 0 { AmountGrows(x, y, q); }
  }

  lemma TargetUnder(agent: Agent, a: Terms, b: Terms, jitter: real, item: Item)
    requires Tighter(a, b) && Carried(agent, item)
    ensures Target(agent, a, jitter, item) <= Target(agent, b, jitter, item)
  {
  }

  /** Tighter terms never raise a total. */
  lemma {:induction false} SqueezeLowers(agent: Agent, a: Terms, b: Terms, jitter: real, items: seq<Item>)
    requires Tighter(a, b) && Quantities(items)
    ensures Adjusted(agent, a, jitter, items) <= Adjusted(agent, b, jitter, items)
  {
    if items != [] {
      var n, item := |items| - 1, items[|items| - 1];
      SqueezeLowers(agent, a, b, jitter, items[..n]);
      if Carried(agent, item) {
        TargetUnder(agent, a, b, jitter, item);
        AmountMonotone(Target(agent, a, jitter, item), Target(agent, b, jitter, item), item.quantity);
      }
    }
  }

  /** The bid under tighter terms is no dearer and no slower, and every unit price
     and the lead time keep to the caps. */
  lemma CounterOfferHonoured(agent: Agent, a: Terms, b: Terms, jitter: real, items: seq<Item>)
    requires Tighter(a, b) && Quantities(items)
    ensures RoundHalfEven(Adjusted(agent, a, jitter, items) * 10000.0)
         <= RoundHalfEven(Adjusted(agent, b, jitter, items) * 10000.0)
    ensures Lead(agent, a) <= Lead(agent, b)
    ensures a.leadDays.Some? ==> Lead(agent, a) <= AtLeastOne(a.leadDays.value)
    ensures forall l :: l in Lines(agent, a, jitter, items) && l.product in a.caps
              ==> l.unitPrice <= RoundHalfEven(a.caps[l.product] * 10000.0)
  {
    SqueezeLowers(agent, a, b, jitter, items);
    RoundMonotone(Adjusted(agent, a, jitter, items) * 10000.0, Adjusted(agent, b, jitter, items) * 10000.0);
    CapsKept(agent, a, jitter, items);
  }

  lemma {:induction false} CapsKept(agent: Agent, terms: Terms, jitter: real, items: seq<Item>)
    ensures forall l :: l in Lines(agent, terms, jitter, items) && l.product in terms.caps
              ==> l.unitPrice <= RoundHalfEven(terms.caps[l.product] * 10000.0)
  {
    if items != [] {
      var n, item := |items| - 1, items[|items| - 1];
      CapsKept(agent, terms, jitter, items[..n]);
      if Carried(agent, item) && item.product in terms.caps {
        RoundMonotone(Target(agent, terms, jitter, item) * 10000.0, terms.caps[item.product] * 10000.0);
      }
    }
  }

  /** Some item that counts is capped below the agent's own price. */
  ghost predicate Bites(agent: Agent, terms: Terms, jitter: real, items: seq<Item>) {
    exists i :: 0 <= i < |items| && BitesOn(agent, terms, jitter, items[i])
  }

  predicate BitesOn(agent: Agent, terms: Terms, jitter: real, item: Item) {
    item.quantity > 0 && Carried(agent, item) && Target(agent, terms, jitter, item) < Target(agent, Free, jitter, item)
  }

  /** The counter-offer lowers the exact total exactly when one of its caps bites. */
  lemma {:induction false} SqueezeExactly(agent: Agent, terms: Terms, jitter: real, items: seq<Item>)
    requires Quantities(items)
    ensures Adjusted(agent, terms, jitter, items) < Adjusted(agent, Free, jitter, items)
       <==> Bites(agent, terms, jitter, items)
  {
    if items != [] {
      var n, item := |items| - 1, items[|items| - 1];
      SqueezeExactly(agent, terms, jitter, items[..n]);
      SqueezeLowers(agent, terms, Free, jitter, items[..n]);
      if Carried(agent, item) {
        TargetUnder(agent, terms, Free, jitter, item);
        AmountMonotone(Target(agent, terms, jitter, item), Target(agent, Free, jitter, item), item.quantity);
      }
      BitesSnoc(agent, terms, jitter, items, n);
    }
  }

  lemma BitesSnoc(agent: Agent, terms: Terms, jitter: real, items: seq<Item>, n: nat)
    requires |items| == n + 1
    ensures Bites(agent, terms, jitter, items)
       <==> Bites(agent, terms, jitter, items[..n]) || BitesOn(agent, terms, jitter, items[n])
  {
    if Bites(agent, terms, jitter, items[..n]) {
      var i :| 0 <= i < n && BitesOn(agent, terms, jitter, items[..n][i]);
      assert items[..n][i] == items[i];
    }
    if Bites(agent, terms, jitter, items) && !BitesOn(agent, terms, jitter, items[n]) {
      var i :| 0 <= i < n + 1 && BitesOn(agent, terms, jitter, items[i]);
      assert items[..n][i] == items[i];
    }
  }

  // ----- the totals -----

  lemma ItemFactor(price: real, m: real, q: int, front: real)
    ensures (front + Amount(price, q)) * m == front * m + Amount(price * m, q)
  {
    assert price * q as real * m == price * m * q as real;
  }

  /** Without a counter-offer the total is the base total times one factor. */
  lemma {:induction false} FreeTotal(agent: Agent, jitter: real, items: seq<Item>)
    ensures Adjusted(agent, Free, jitter, items) == Base(agent, items) * Multiplier(agent, jitter)
  {
    if items != [] {
      var n, item := |items| - 1, items[|items| - 1];
      FreeTotal(agent, jitter, items[..n]);
      if Carried(agent, item) {
        ItemFactor(agent.basePrices[item.product], Multiplier(agent, jitter), item.quantity, Base(agent, items[..n]));
      }
    }
  }

  lemma {:induction false} BaseNonNegative(agent: Agent, items: seq<Item>)
    requires Quantities(items)
    ensures 0.0 <= Base(agent, items)
  {
    if items != [] {
      var n, item := |items| - 1, items[|items| - 1];
      BaseNonNegative(agent, items[..n]);
      if Carried(agent, item) { AmountMonotone(0.0, agent.basePrices[item.product], item.quantity); }
    }
  }

  /** x lies between lo and hi times the base. */
  ghost predicate InBand(x: real, base: real, lo: real, hi: real) {
    base * lo <= x <= base * hi
  }

  lemma ProductInBand(x: real, base: real, lo: real, m: real, hi: real)
    requires 0.0 <= base && lo <= m <= hi && x == base * m
    ensures InBand(x, base, lo, hi)
  {
    ScaleRight(lo, m, base);
    ScaleRight(m, hi, base);
  }

  /** The factor a strategy aims at. */
  function OwnFactor(strategy: Strategy): real {
    1.0 + strategy.PriceShift()
  }

  lemma MultiplierRange(agent: Agent, jitter: real)
    requires -JITTER_BAND <= jitter <= JITTER_BAND
    ensures var own, m := OwnFactor(agent.strategy), Multiplier(agent, jitter);
            own - JITTER_BAND <= m <= own + JITTER_BAND && 0.80 <= m <= 1.10
  {
  }

  lemma FreeTotalInBand(agent: Agent, jitter: real, items: seq<Item>, lo: real, hi: real)
    requires Quantities(items) && lo <= Multiplier(agent, jitter) <= hi
    ensures InBand(Adjusted(agent, Free, jitter, items), Base(agent, items), lo, hi)
  {
    FreeTotal(agent, jitter, items);
    BaseNonNegative(agent, items);
    ProductInBand(Adjusted(agent, Free, jitter, items), Base(agent, items), lo, Multiplier(agent, jitter), hi);
  }

  /** The jitter moves a total by at most two percent of the base total around the strategy's own price. */
  lemma JitterBounded(agent: Agent, jitter: real, items: seq<Item>)
    requires -JITTER_BAND <= jitter <= JITTER_BAND && Quantities(items)
    ensures var total, base, own := Adjusted(agent, Free, jitter, items), Base(agent, items), OwnFactor(agent.strategy);
            InBand(total, base, own - JITTER_BAND, own + JITTER_BAND) && InBand(total, base, 0.80, 1.10)
  {
    var own := OwnFactor(agent.strategy);
    MultiplierRange(agent, jitter);
    FreeTotalInBand(agent, jitter, items, own - JITTER_BAND, own + JITTER_BAND);
    FreeTotalInBand(agent, jitter, items, 0.80, 1.10);
  }

  function SumLines(lines: seq<Line>): int {
    if lines == [] then 0
    else SumLines(lines[..|lines| - 1]) + lines[|lines| - 1].unitPrice * lines[|lines| - 1].quantity
  }

  function Pieces(lines: seq<Line>): int {
    if lines == [] then 0 else Pieces(lines[..|lines| - 1]) + lines[|lines| - 1].quantity
  }

  lemma AmountGap(y: real, z: real, q: int)
    ensures Amount(y, q) - Amount(z, q) == Amount(y - z, q)
  {
    ScaleApart(q as real, z, y);
  }

  lemma NearAmounts(y: real, z: real, q: int)
    requires q >= 0 && -0.5 <= y - z <= 0.5
    ensures -0.5 * q as real <= Amount(y, q) - Amount(z, q) <= 0.5 * q as real
  {
    AmountGap(y, z, q);
    AmountMonotone(-0.5, y - z, q);
    AmountMonotone(y - z, 0.5, q);
  }

  lemma WholeAmount(u: int, q: int)
    ensures Amount(u as real, q) == (u * q) as real
  {
  }

  /** One more line. */
  lemma NearStep(front: seq<Line>, line: Line, total: real, amount: real)
    requires Abs(total * 10000.0 - SumLines(front) as real) <= 0.5 * Pieces(front) as real && line.quantity >= 0
    requires var gap := amount * 10000.0 - Amount(line.unitPrice as real, line.quantity);
             -0.5 * line.quantity as real <= gap <= 0.5 * line.quantity as real
    ensures Abs((total + amount) * 10000.0 - SumLines(front + [line]) as real)
         <= 0.5 * Pieces(front + [line]) as real
  {
    assert (front + [line])[..|front|] == front;
    WholeAmount(line.unitPrice, line.quantity);
  }

  lemma AmountInUnits(x: real, q: int)
    ensures Amount(x, q) * 10000.0 == Amount(x * 10000.0, q)
  {
  }

  /** The total is summed before unit prices are rounded: it may differ from its lines by half a unit per piece. */
  lemma {:induction false} LinesNearTotal(agent: Agent, terms: Terms, jitter: real, items: seq<Item>)
    requires Quantities(items)
    ensures var lines := Lines(agent, terms, jitter, items);
            Abs(Adjusted(agent, terms, jitter, items) * 10000.0 - SumLines(lines) as real)
            <= 0.5 * Pieces(lines) as real
  {
    if items != [] {
      var n, item := |items| - 1, items[|items| - 1];
      var front := Lines(agent, terms, jitter, items[..n]);
      LinesNearTotal(agent, terms, jitter, items[..n]);
      assert front + [] == front;
      if Carried(agent, item) {
        var line := LineOf(agent, terms, jitter, item);
        var price := Target(agent, terms, jitter, item);
        AmountInUnits(price, item.quantity);
        NearAmounts(price * 10000.0, line.unitPrice as real, item.quantity);
        NearStep(front, line, Adjusted(agent, terms, jitter, items[..n]), Amount(price, item.quantity));
      }
    }
  }

  // ----- what each strategy asks for -----

  /** Days on top of the base lead; fewer than none for the aggressive. */
  ghost function DaysAdded(strategy: Strategy): int {
    match strategy
    case Aggressive => -2
    case Balanced => 0
    case Premium => 3
    case SlowButCheap => 7
  }

  /** The part of the base price that is asked for, before the jitter. */
  ghost function PartAsked(strategy: Strategy): real {
    match strategy
    case Aggressive => 0.9
    case Balanced => 0.95
    case Premium => 1.08
    case SlowButCheap => 0.82
  }

  /** The lead time is that of the strategy or the cap, whichever is less, but never below a day. */
  lemma LeadExactly(agent: Agent, terms: Terms, n: int)
    ensures n <= Lead(agent, terms)
       <==> n <= 1 || (n <= agent.baseLead + DaysAdded(agent.strategy)
                       && (terms.leadDays.Some? ==> n <= terms.leadDays.value))
  {
  }

  /** From the same base the strategies keep one order in their lead times, and another in their prices. */
  lemma StrategiesOrdered(prices: map<string, real>, lead: int, terms: Terms, jitter: real, product: string)
    requires product in prices && prices[product] > 0.0
    ensures Lead(Agent(prices, lead, Aggressive), terms) <= Lead(Agent(prices, lead, Balanced), terms)
         <= Lead(Agent(prices, lead, Premium), terms) <= Lead(Agent(prices, lead, SlowButCheap), terms)
    ensures OwnPrice(Agent(prices, lead, SlowButCheap), jitter, product)
          < OwnPrice(Agent(prices, lead, Aggressive), jitter, product)
          < OwnPrice(Agent(prices, lead, Balanced), jitter, product)
          < OwnPrice(Agent(prices, lead, Premium), jitter, product)
  {
    var p := prices[product];
    PriceGrows(p, 0.82 + jitter, 0.9 + jitter);
    PriceGrows(p, 0.9 + jitter, 0.95 + jitter);
    PriceGrows(p, 0.95 + jitter, 1.08 + jitter);
  }

  lemma PriceGrows(p: real, m: real, n: real)
    requires 0.0 < p && m < n
    ensures p * m < p * n
  {
  }

  /** The requested items that the agent has a price for. */
  ghost function Offered(agent: Agent, items: seq<Item>): seq<Item> {
    if items == [] then []
    else
      var item := items[|items| - 1];
      Offered(agent, items[..|items| - 1])
      + if item.product in agent.basePrices && agent.basePrices[item.product] > 0.0 then [item] else []
  }

  /** The line asks the strategy's part of the base price, moved by the jitter, unless a cap is below that. */
  ghost predicate Asks(agent: Agent, terms: Terms, jitter: real, item: Item, line: Line) {
    && line.product == item.product && line.quantity == item.quantity && item.product in agent.basePrices
    && var own := agent.basePrices[item.product] * (PartAsked(agent.strategy) + jitter);
       var capped := item.product in terms.caps && terms.caps[item.product] < own;
       Nearest((if capped then terms.caps[item.product] else own) * 10000.0, line.unitPrice)
  }

  lemma LineAsks(agent: Agent, terms: Terms, jitter: real, item: Item)
    requires Carried(agent, item)
    ensures Asks(agent, terms, jitter, item, LineOf(agent, terms, jitter, item))
  {
    assert Multiplier(agent, jitter) == PartAsked(agent.strategy) + jitter;
  }

  /** A bid has one line for each item the agent has a price for, in order, and asks exactly that. */
  lemma {:induction false} LinesAsk(agent: Agent, terms: Terms, jitter: real, items: seq<Item>)
    ensures var lines, offered := Lines(agent, terms, jitter, items), Offered(agent, items);
            |lines| == |offered| && forall i :: 0 <= i < |lines| ==> Asks(agent, terms, jitter, offered[i], lines[i])
  {
    if items != [] {
      LinesAsk(agent, terms, jitter, items[..|items| - 1]);
      var item := items[|items| - 1];
      if Carried(agent, item) { LineAsks(agent, terms, jitter, item); }
    }
  }
}
