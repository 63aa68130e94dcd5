/** What every run does to quotes: one per supplier, the last accepted one,
 priced line by line and marked up at most once. */
module MarketQuotes {
  import opened Wrappers
  import opened Rounding
  import opened Market
  import opened MarketSafety

  // ----- pricing one form -----

  /** A line that names a known, resolvable item with a recognised answer and, if it bids, a price
     and a quantity in range. */
  predicate Valid(items: seq<Item>, line: Line) {
    && line.item.Some? && line.item.value < |items| && items[line.item.value].product.Some?
    && line.status != Unrecognised
    && (line.status != NoBid ==> line.unitPrice.Some?)
    && (line.status == Partial ==> InRange(line.quotedQuantity, items[line.item.value].quantity))
  }

  predicate InRange(quoted: Option<int>, requested: int) {
    quoted.Some? && 0 < quoted.value <= requested
  }

  /** What a stored quote line says about the line it answers. */
  predicate Answers(items: seq<Item>, line: Line, q: QuoteItem)
    requires Valid(items, line)
  {
    var item := items[line.item.value];
    && q.product == item.product.value && q.status == line.status
    && match line.status
       case NoBid => q.quantity == item.quantity && q.unitPrice == 0.0 && q.lineTotal == 0
                       && q.quotedQuantity == Some(0)
       case Full => (q.quantity == item.quantity && q.unitPrice == line.unitPrice.value && q.quotedQuantity == None
                     && Priced(q))
       case Unrecognised => false
       case Partial => (0 < q.quantity == line.quotedQuantity.value <= item.quantity
                        && q.unitPrice == line.unitPrice.value
                        && q.quotedQuantity == Some(q.quantity) && Priced(q))
  }

  predicate Answered(items: seq<Item>, line: Line, q: QuoteItem) {
    Valid(items, line) && Answers(items, line, q)
  }

  lemma PriceLineMeaning(items: seq<Item>, line: Line)
    ensures PriceLine(items, line).Ok? <==> Valid(items, line)
    ensures PriceLine(items, line).Ok? ==> Answered(items, line, PriceLine(items, line).value)
  {
  }

  /** A form prices exactly when all its lines are valid, and then line for line. */
  lemma {:induction false} PriceLinesMeaning(items: seq<Item>, lines: seq<Line>)
    ensures PriceLines(items, lines).Ok? <==> forall i :: 0 <= i < |lines| ==> Valid(items, lines[i])
    ensures var r := PriceLines(items, lines);
            r.Ok? ==> |r.value| == |lines| && forall i :: 0 <= i < |lines| ==> Answered(items, lines[i], r.value[i])
  {
    if lines != [] {
      var last := |lines| - 1;
      PriceLinesMeaning(items, lines[..last]);
      assert forall i :: 0 <= i < last ==> lines[..last][i] == lines[i];
      PriceLineMeaning(items, lines[last]);
    }
  }

  /** When a submission is accepted, both ways; where the quantity check is deployed,
     a no-bid line is enough to refuse it. */
  lemma SubmissionAccepted(s: State, r: Id, supplier: Id, active: bool, lines: seq<Line>, leadDays: int)
    ensures Exec(s, SubmitQuote(r, supplier, active, lines, leadDays)).Ok? <==>
      && r in s.rfqs && Live(s.rfqs[r]) && s.now <= s.rfqs[r].deadline && active
      && (forall i :: 0 <= i < |lines| ==> Valid(s.rfqs[r].items, lines[i]) && (s.strict ==> lines[i].status != NoBid))
  {
    if r in s.rfqs {
      var items := s.rfqs[r].items;
      PriceLinesMeaning(items, lines);
      var priced := PriceLines(items, lines);
      if priced.Ok? {
        if AllStorable(priced.value) {
          forall i | 0 <= i < |lines| ensures lines[i].status != NoBid
          { assert Answers(items, lines[i], priced.value[i]); }
        }
        if forall i :: 0 <= i < |lines| ==> lines[i].status != NoBid {
          forall i | 0 <= i < |priced.value| ensures Storable(priced.value[i])
          { assert Answers(items, lines[i], priced.value[i]); }
        }
      }
    }
  }

  // ----- markup -----

  lemma FactorRange(pct: real)
    requires 0.0 <= pct <= 100.0
    ensures 1.0 <= Factor(pct) <= 2.0
  {
  }

  lemma ExactRange(total: nat, factor: real)
    requires 1.0 <= factor <= 2.0
    ensures total as real <= Exact(total, factor) <= (2 * total) as real
  {
    ScaleRight(1.0, factor, total as real);
    ScaleRight(factor, 2.0, total as real);
  }

  lemma RoundBetween(lo: int, x: real, hi: int)
    requires lo as real <= x <= hi as real
    ensures lo <= RoundHalfEven(x) <= hi
  {
    RoundMonotone(lo as real, x);
    RoundMonotone(x, hi as real);
    RoundWhole(lo);
    RoundWhole(hi);
  }

  /** The marked-up total is within half a unit of the exact product and between the total and its double. */
  lemma MarkupBounds(total: int, pct: real)
    requires 0.0 <= pct <= 100.0
    ensures Nearest(total as real * (1.0 + pct / 100.0), MarkedUp(total, pct))
    ensures 0 <= total ==> total <= MarkedUp(total, pct) <= 2 * total
  {
    if 0 <= total {
      FactorRange(pct);
      ExactRange(total, Factor(pct));
      RoundBetween(total, Exact(total, Factor(pct)), 2 * total);
    }
  }

  lemma ExactMonotone(a: int, b: int, factor: real)
    requires 0.0 <= factor && a <= b
    ensures Exact(a, factor) <= Exact(b, factor)
  {
    ScaleRight(a as real, b as real, factor);
  }

  lemma FactorNonNegative(pct: real)
    requires 0.0 <= pct
    ensures 0.0 <= Factor(pct)
  {
  }

  /** Markup keeps the order of prices. */
  lemma MarkupMonotone(a: int, b: int, pct: real)
    requires 0.0 <= pct && a <= b
    ensures MarkedUp(a, pct) <= MarkedUp(b, pct)
  {
    FactorNonNegative(pct);
    ExactMonotone(a, b, Factor(pct));
    RoundMonotone(Exact(a, Factor(pct)), Exact(b, Factor(pct)));
  }

  /** A markup replaces the one before it: markups never compound. */
  lemma MarkupReplaces(s: State, r: Id, first: real, second: real)
    requires Exec(s, ApplyMarkup(r, first)).Ok? && Exec(s, ApplyMarkup(r, second)).Ok?
    ensures Apply(Apply(s, ApplyMarkup(r, first)), ApplyMarkup(r, second)) == Apply(s, ApplyMarkup(r, second))
  {
    var quotes := s.rfqs[r].quotes;
    assert MarkQuotes(MarkQuotes(quotes, first), second) == MarkQuotes(quotes, second);
    var a, b := Apply(Apply(s, ApplyMarkup(r, first)), ApplyMarkup(r, second)), Apply(s, ApplyMarkup(r, second));
    assert a.rfqs == b.rfqs;
  }

  /** The percentage that the RFQ records. */
  function Recorded(pct: real): real {
    StoredPct(pct) as real / 100.0
  }

  lemma EnoughToShow(gap: real) returns (total: nat)
    requires 0.0 < gap
    ensures 2.0 <= total as real * gap
  {
    var q := 2.0 / gap;
    assert q * gap == 2.0;
    assert 0.0 < q;
    total := Ceil(q);
    ScaleRight(q, total as real, gap);
  }

  /** Different percentages mark some total up differently. */
  lemma Apart(pct: real, other: real) returns (total: nat)
    requires pct < other
    ensures MarkedUp(total, pct) < MarkedUp(total, other)
  {
    total := EnoughToShow(Factor(other) - Factor(pct));
    ScaleApart(total as real, Factor(pct), Factor(other));
  }

  /** The recorded percentage reproduces every marked-up total exactly when the one applied had at most two decimals. */
  lemma RecordedPctExact(pct: real)
    requires 0.0 <= pct <= 100.0
    ensures (forall total: int :: MarkedUp(total, pct) == MarkedUp(total, Recorded(pct))) <==> pct == Recorded(pct)
    ensures -0.005 <= pct - Recorded(pct) <= 0.005
  {
    if pct < Recorded(pct) {
      var t := Apart(pct, Recorded(pct));
    } else if Recorded(pct) < pct {
      var t := Apart(Recorded(pct), pct);
    }
  }

  /** For instance, 12.345 percent on 10.0000 gives 11.2345, but 12.35 is recorded, which gives 11.2350. */
  lemma RecordedPctInstance()
    ensures MarkedUp(100000, 12.345) == 112345 && Recorded(12.345) == 12.35 && MarkedUp(100000, 12.35) == 112350
  {
    RoundWhole(112345);
    RoundWhole(112350);
    assert Exact(100000, Factor(12.345)) == 112345.0 && Exact(100000, Factor(12.35)) == 112350.0;
  }

  // ----- quotes of one RFQ -----

  ghost predicate OnePerSupplier(quotes: seq<Quote>) {
    forall i, j :: 0 <= i < j < |quotes|
      ==> quotes[i].bid.supplier != quotes[j].bid.supplier && quotes[i].id != quotes[j].id
  }

  ghost predicate Tidy(s: State, r: Id)
    requires r in s.rfqs
  {
    var rfq := s.rfqs[r];
    && OnePerSupplier(rfq.quotes)
    && rfq.responded == |rfq.quotes|
    && (forall i :: 0 <= i < |rfq.quotes|
          ==> rfq.quotes[i].id < s.nextId && rfq.quotes[i].bid.total == SumTotals(rfq.quotes[i].bid.items))
    && (if rfq.status == Awarded && rfq.quotes != []
        then rfq.awarded.Some? && exists i :: 0 <= i < |rfq.quotes| && rfq.quotes[i].id == rfq.awarded.value
        else rfq.awarded == None)
  }

  ghost predicate AllTidy(s: State) {
    forall r :: r in s.rfqs ==> Tidy(s, r)
  }

  lemma {:induction false} WithoutTidy(quotes: seq<Quote>, supplier: Id)
    requires OnePerSupplier(quotes)
    ensures var rest := Without(quotes, supplier);
            && OnePerSupplier(rest) && !Quoted(rest, supplier)
            && (forall q :: q in rest ==> q in quotes)
            && |rest| == if Quoted(quotes, supplier) then |quotes| - 1 else |quotes|
  {
    if quotes != [] {
      var last := |quotes| - 1;
      var front := quotes[..last];
      WithoutTidy(front, supplier);
      WithoutSubset(front, supplier);
      assert quotes == front + [quotes[last]];
      assert Quoted(quotes, supplier) <==> Quoted(front, supplier) || quotes[last].bid.supplier == supplier;
      forall i | 0 <= i < |Without(front, supplier)|
        ensures Without(front, supplier)[i].bid.supplier != quotes[last].bid.supplier
                && Without(front, supplier)[i].id != quotes[last].id
      {
        assert Without(front, supplier)[i] in front;
      }
    }
  }

  lemma TidyReplace(rest: seq<Quote>, quotes: seq<Quote>, supplier: Id, q: Quote)
    requires OnePerSupplier(rest) && !Quoted(rest, supplier) && q.bid.supplier == supplier
    requires (forall x :: x in rest ==> x in quotes) && forall x :: x in quotes ==> x.id != q.id
    ensures OnePerSupplier(rest + [q])
  {
    forall i | 0 <= i < |rest| ensures rest[i].bid.supplier != supplier && rest[i].id != q.id {
      assert rest[i] in rest;
    }
  }

  lemma TotalsKept(s: State, t: State, r: Id)
    requires r in s.rfqs && r in t.rfqs && Tidy(s, r) && s.nextId <= t.nextId
    requires forall x :: x in t.rfqs[r].quotes
               ==> x in s.rfqs[r].quotes || (x.id < t.nextId && x.bid.total == SumTotals(x.bid.items))
    ensures forall i :: 0 <= i < |t.rfqs[r].quotes| ==>
              t.rfqs[r].quotes[i].id < t.nextId
              && t.rfqs[r].quotes[i].bid.total == SumTotals(t.rfqs[r].quotes[i].bid.items)
  {
    forall i | 0 <= i < |t.rfqs[r].quotes| ensures t.rfqs[r].quotes[i] in t.rfqs[r].quotes {}
  }

  /** An accepted submission counts right; the clamp at zero never bites. */
  lemma TidySubmitted(s: State, step: Step)
    requires AllTidy(s) && step.SubmitQuote? && Exec(s, step).Ok?
    ensures Tidy(Apply(s, step), step.rfq)
    ensures Quoted(s.rfqs[step.rfq].quotes, step.supplier) ==> s.rfqs[step.rfq].responded - 1 >= 0
  {
    var rfq, t := s.rfqs[step.rfq], Apply(s, step);
    assert Tidy(s, step.rfq);
    WithoutTidy(rfq.quotes, step.supplier);
    var rest := Without(rfq.quotes, step.supplier);
    var q := t.rfqs[step.rfq].quotes[|rest|];
    assert forall x :: x in rfq.quotes ==> x.id != q.id;
    TidyReplace(rest, rfq.quotes, step.supplier, q);
    TotalsKept(s, t, step.rfq);
  }

  lemma TidySubmit(s: State, step: Step)
    requires AllTidy(s) && step.SubmitQuote? && Exec(s, step).Ok?
    ensures AllTidy(Apply(s, step))
  {
    TidySubmitted(s, step);
    var t := Apply(s, step);
    forall r | r in t.rfqs ensures Tidy(t, r) {
      assert Tidy(s, r);
    }
  }

  lemma TidyMarkup(s: State, step: Step)
    requires AllTidy(s) && step.ApplyMarkup? && Exec(s, step).Ok?
    ensures AllTidy(Apply(s, step))
  {
    var t := Apply(s, step);
    forall r | r in t.rfqs ensures Tidy(t, r) {
      assert Tidy(s, r);
    }
  }

  lemma TidyFanOut(s: State, step: Step)
    requires AllTidy(s) && step.FanOut? && Exec(s, step).Ok?
    ensures AllTidy(Apply(s, step))
  {
    var t := Apply(s, step);
    forall r | r in t.rfqs ensures Tidy(t, r) {
      assert r != s.nextId ==> Tidy(s, r);
    }
  }

  lemma TidyDecide(s: State, step: Step)
    requires AllTidy(s) && step.Decide? && Exec(s, step).Ok?
    ensures AllTidy(Apply(s, step))
  {
    var t := Apply(s, step);
    forall r | r in t.rfqs ensures Tidy(t, r) {
      assert Tidy(s, r);
    }
  }

  lemma TidyOther(s: State, step: Step)
    requires AllTidy(s) && !step.SubmitQuote? && !step.ApplyMarkup? && !step.FanOut? && !step.Decide?
    ensures AllTidy(Apply(s, step))
  {
    var t := Apply(s, step);
    forall r | r in t.rfqs ensures Tidy(t, r) {
      assert Tidy(s, r);
      TidySame(s, t, r);
    }
  }

  lemma TidySame(s: State, t: State, r: Id)
    requires r in s.rfqs && r in t.rfqs && Tidy(s, r) && s.nextId <= t.nextId
    requires t.rfqs[r] == s.rfqs[r].(status := t.rfqs[r].status)
    requires t.rfqs[r].status == Awarded <==> s.rfqs[r].status == Awarded
    ensures Tidy(t, r)
  {
  }

  /**
   In every reachable state each RFQ has at most one quote per supplier and counts them right, each
   total is the sum of its lines, each quote bears the mark that the markups since its submission gave
   it, and an award names a quote of its own RFQ.
   */
  lemma {:induction false} TidyRun(now: int, strict: bool, steps: seq<Step>)
    ensures AllTidy(Run(Empty(now, strict), steps))
    ensures forall r :: MarksFollow(Empty(now, strict), steps, r)
  {
    forall r ensures MarksFollow(Empty(now, strict), steps, r) {
      MarksFollowHistory(now, strict, steps, r);
    }
    if steps != [] {
      var last := |steps| - 1;
      TidyRun(now, strict, steps[..last]);
      var s, step := Run(Empty(now, strict), steps[..last]), steps[last];
      if Exec(s, step).Ok? {
        match step
        case SubmitQuote(_, _, _, _, _) => TidySubmit(s, step);
        case ApplyMarkup(_, _) => TidyMarkup(s, step);
        case FanOut(_, _, _) => TidyFanOut(s, step);
        case Decide(_, _, _) => TidyDecide(s, step);
        case _ => TidyOther(s, step);
      }
    }
  }

  // ----- the last accepted submission per supplier -----

  /** The quotes of an RFQ as a map from supplier to bid. */
  ghost function Book(quotes: seq<Quote>): map<Id, Bid> {
    if quotes == [] then map[]
    else Book(quotes[..|quotes| - 1])[quotes[|quotes| - 1].bid.supplier := quotes[|quotes| - 1].bid]
  }

  /** The bid that a step places on RFQ r, when it is a submission and is accepted. */
  ghost function Placed(s: State, step: Step, r: Id): Option<Bid> {
    if step.SubmitQuote? && step.rfq == r && Exec(s, step).Ok? then
      var items := PriceLines(s.rfqs[r].items, step.lines).value;
      Some(Bid(step.supplier, items, SumTotals(items), step.leadDays))
    else None
  }

  /** For each supplier, the bid of the last submission on RFQ r accepted in the run. */
  ghost function LastBids(s: State, steps: seq<Step>, r: Id): map<Id, Bid> {
    if steps == [] then map[]
    else
      var before := LastBids(s, steps[..|steps| - 1], r);
      var placed := Placed(Run(s, steps[..|steps| - 1]), steps[|steps| - 1], r);
      if placed.Some? then before[placed.value.supplier := placed.value] else before
  }

  lemma {:induction false} BookWithout(quotes: seq<Quote>, supplier: Id)
    ensures Book(Without(quotes, supplier)) == Book(quotes) - {supplier}
  {
    if quotes != [] {
      var last := |quotes| - 1;
      BookWithout(quotes[..last], supplier);
      var rest := Without(quotes[..last], supplier);
      assert (rest + [quotes[last]])[..|rest|] == rest;
    }
  }

  lemma {:induction false} BookMarked(quotes: seq<Quote>, pct: real)
    ensures Book(MarkQuotes(quotes, pct)) == Book(quotes)
  {
    if quotes != [] {
      var last := |quotes| - 1;
      BookMarked(quotes[..last], pct);
      assert MarkQuotes(quotes, pct)[..last] == MarkQuotes(quotes[..last], pct);
    }
  }

  lemma BookSnoc(quotes: seq<Quote>, q: Quote)
    ensures Book(quotes + [q]) == Book(quotes)[q.bid.supplier := q.bid]
  {
    assert (quotes + [q])[..|quotes|] == quotes;
  }

  /** Replacing a supplier's quote replaces its bid in the book. */
  lemma BookReplaced(quotes: seq<Quote>, q: Quote)
    ensures Book(Without(quotes, q.bid.supplier) + [q]) == Book(quotes)[q.bid.supplier := q.bid]
  {
    BookWithout(quotes, q.bid.supplier);
    BookSnoc(Without(quotes, q.bid.supplier), q);
  }

  lemma BookSubmitted(s: State, step: Step, r: Id)
    requires Fresh(s) && r in s.rfqs && step.SubmitQuote? && Placed(s, step, r).Some?
    ensures var t := Apply(s, step); var bid := Placed(s, step, r).value;
            r in t.rfqs && Book(t.rfqs[r].quotes) == Book(s.rfqs[r].quotes)[bid.supplier := bid]
  {
    var bid := Placed(s, step, r).value;
    BookReplaced(s.rfqs[r].quotes, Quote(s.nextId, bid, bid.total, bid.total));
  }

  lemma BookUnchanged(s: State, step: Step, r: Id)
    requires Fresh(s) && r in s.rfqs && Placed(s, step, r).None?
    ensures var t := Apply(s, step); r in t.rfqs && Book(t.rfqs[r].quotes) == Book(s.rfqs[r].quotes)
  {
    if step.ApplyMarkup? { BookMarked(s.rfqs[r].quotes, step.pct); }
  }

  lemma BookStep(s: State, step: Step, r: Id)
    requires Fresh(s) && r in s.rfqs
    ensures var t := Apply(s, step); var placed := Placed(s, step, r);
            r in t.rfqs && Book(t.rfqs[r].quotes) ==
              if placed.Some? then Book(s.rfqs[r].quotes)[placed.value.supplier := placed.value]
              else Book(s.rfqs[r].quotes)
  {
    if Placed(s, step, r).Some? {
      BookSubmitted(s, step, r);
    } else {
      BookUnchanged(s, step, r);
    }
  }

  /** An RFQ that was not there before starts without quotes. */
  lemma BookNew(s: State, step: Step, r: Id)
    requires Fresh(s) && r !in s.rfqs
    ensures var t := Apply(s, step); Placed(s, step, r).None? && (r in t.rfqs ==> t.rfqs[r].quotes == [])
  {
  }

  /** In every run the stored quotes are exactly each supplier's last accepted submission. */
  lemma {:induction false} QuotesAreLastAccepted(now: int, strict: bool, steps: seq<Step>, r: Id)
    ensures var t := Run(Empty(now, strict), steps);
            Fresh(t) && LastBids(Empty(now, strict), steps, r) == if r in t.rfqs then Book(t.rfqs[r].quotes) else map[]
  {
    if steps != [] {
      var last := |steps| - 1;
      QuotesAreLastAccepted(now, strict, steps[..last], r);
      var s := Run(Empty(now, strict), steps[..last]);
      LaterStep(s, steps[last]);
      if r in s.rfqs { BookStep(s, steps[last], r); } else { BookNew(s, steps[last], r); }
    }
  }

  // ----- which quotes are marked up -----

  /** The percentage of the last markup of RFQ r since the supplier's last accepted submission, if there was one. */
  ghost function SinceMarkup(s: State, steps: seq<Step>, r: Id, supplier: Id): Option<real> {
    if steps == [] then None
    else
      var front, step := steps[..|steps| - 1], steps[|steps| - 1];
      NextMark(SinceMarkup(s, front, r, supplier), Run(s, front), step, r, supplier)
  }

  ghost function NextMark(mark: Option<real>, s: State, step: Step, r: Id, supplier: Id): Option<real> {
    if Exec(s, step).Err? then mark
    else if step.SubmitQuote? && step.rfq == r && step.supplier == supplier then None
    else if step.ApplyMarkup? && step.rfq == r then Some(step.pct)
    else mark
  }

  /** The customer's price of q is the marked-up total, or the plain one when there is no mark. */
  predicate Bears(q: Quote, mark: Option<real>) {
    q.markedUp == q.customerFacing == if mark.Some? then MarkedUp(q.bid.total, mark.value) else q.bid.total
  }

  /** A mark is the percentage that the RFQ records. */
  predicate Current(rfq: Rfq, mark: Option<real>) {
    mark.Some? ==> 0.0 <= mark.value <= 100.0 && StoredPct(mark.value) == rfq.markup
  }

  lemma MarkSubmitted(s: State, step: Step, q: Quote, mark: Option<real>)
    requires step.SubmitQuote? && Exec(s, step).Ok? && q in Apply(s, step).rfqs[step.rfq].quotes
    requires q in s.rfqs[step.rfq].quotes ==> Bears(q, mark) && Current(s.rfqs[step.rfq], mark)
    ensures var next := NextMark(mark, s, step, step.rfq, q.bid.supplier);
            Bears(q, next) && Current(Apply(s, step).rfqs[step.rfq], next)
  {
    WithoutSubset(s.rfqs[step.rfq].quotes, step.supplier);
  }

  lemma MarkApplied(s: State, step: Step, q: Quote, mark: Option<real>)
    requires step.ApplyMarkup? && Exec(s, step).Ok? && q in Apply(s, step).rfqs[step.rfq].quotes
    ensures var next := NextMark(mark, s, step, step.rfq, q.bid.supplier);
            Bears(q, next) && Current(Apply(s, step).rfqs[step.rfq], next)
  {
  }

  lemma MarkElsewhere(s: State, step: Step, r: Id, q: Quote, mark: Option<real>)
    requires Fresh(s) && r in s.rfqs && r in Apply(s, step).rfqs && q in Apply(s, step).rfqs[r].quotes
    requires Exec(s, step).Err? || !((step.SubmitQuote? || step.ApplyMarkup?) && step.rfq == r)
    ensures q in s.rfqs[r].quotes && NextMark(mark, s, step, r, q.bid.supplier) == mark
    ensures Apply(s, step).rfqs[r].markup == s.rfqs[r].markup
  {
  }

  /** What every run says about the marks of the quotes of RFQ r. */
  ghost predicate MarksFollow(s: State, steps: seq<Step>, r: Id) {
    var t := Run(s, steps);
    r in t.rfqs ==> forall q :: q in t.rfqs[r].quotes ==> MarkFollows(s, steps, r, q)
  }

  ghost predicate MarkFollows(s: State, steps: seq<Step>, r: Id, q: Quote)
    requires r in Run(s, steps).rfqs
  {
    var mark := SinceMarkup(s, steps, r, q.bid.supplier);
    Bears(q, mark) && Current(Run(s, steps).rfqs[r], mark)
  }

  lemma MarkStep(s: State, steps: seq<Step>, r: Id, q: Quote)
    requires steps != [] && Fresh(Run(s, steps[..|steps| - 1])) && MarksFollow(s, steps[..|steps| - 1], r)
    requires r in Run(s, steps).rfqs && q in Run(s, steps).rfqs[r].quotes
    ensures MarkFollows(s, steps, r, q)
  {
    var front, step := steps[..|steps| - 1], steps[|steps| - 1];
    var before, mark := Run(s, front), SinceMarkup(s, front, r, q.bid.supplier);
    if r !in before.rfqs {
      BookNew(before, step, r);
    } else {
      assert q in before.rfqs[r].quotes ==> MarkFollows(s, front, r, q);
      if Exec(before, step).Ok? && step.SubmitQuote? && step.rfq == r {
        MarkSubmitted(before, step, q, mark);
      } else if Exec(before, step).Ok? && step.ApplyMarkup? && step.rfq == r {
        MarkApplied(before, step, q, mark);
      } else {
        MarkElsewhere(before, step, r, q, mark);
      }
    }
  }

  /**
   In every run each quote is marked up by the last markup accepted since its supplier's last accepted
   submission, which is the percentage the RFQ records, or it bears its own total when there was none.
   */
  lemma {:induction false} MarksFollowHistory(now: int, strict: bool, steps: seq<Step>, r: Id)
    ensures Fresh(Run(Empty(now, strict), steps)) && MarksFollow(Empty(now, strict), steps, r)
  {
    var s := Empty(now, strict);
    if steps != [] {
      var last := |steps| - 1;
      MarksFollowHistory(now, strict, steps[..last], r);
      LaterStep(Run(s, steps[..last]), steps[last]);
      if r in Run(s, steps).rfqs {
        forall q | q in Run(s, steps).rfqs[r].quotes ensures MarkFollows(s, steps, r, q) {
          MarkStep(s, steps, r, q);
        }
      }
    }
  }

  lemma {:induction false} ClosedNeverMarked(s: State, steps: seq<Step>, r: Id, supplier: Id)
    requires Fresh(s) && r in s.rfqs && s.rfqs[r].status != Sent
    ensures SinceMarkup(s, steps, r, supplier).None?
  {
    if steps != [] {
      var last := |steps| - 1;
      ClosedNeverMarked(s, steps[..last], r, supplier);
      LaterRun(s, steps[..last]);
      assert Keeps(s.rfqs[r], Run(s, steps[..last]).rfqs[r]);
    }
  }

  lemma SentIsMarkable(s: State, r: Id, supplier: Id)
    requires r in s.rfqs && s.rfqs[r].status == Sent
    ensures SinceMarkup(s, [ApplyMarkup(r, 10.0)], r, supplier) == Some(10.0)
  {
    var steps := [ApplyMarkup(r, 10.0)];
    assert Run(s, steps[..|steps| - 1]) == s;
    assert Exec(s, steps[|steps| - 1]).Ok?;
  }

  /** A quote just submitted can still be marked up later exactly when its RFQ was not yet closed. */
  lemma MarkableExactly(s: State, step: Step)
    requires Fresh(s) && step.SubmitQuote? && Exec(s, step).Ok?
    ensures (exists more :: SinceMarkup(Apply(s, step), more, step.rfq, step.supplier).Some?)
       <==> s.rfqs[step.rfq].status == Sent
  {
    var t, r := Apply(s, step), step.rfq;
    LaterStep(s, step);
    if s.rfqs[r].status == Sent {
      SentIsMarkable(t, r, step.supplier);
    } else {
      forall more ensures SinceMarkup(t, more, r, step.supplier).None? {
        ClosedNeverMarked(t, more, r, step.supplier);
      }
    }
  }

  // ----- when all quotes are marked up -----

  /** A submission on RFQ r was accepted since the last accepted markup of it. */
  ghost predicate Pending(s: State, steps: seq<Step>, r: Id) {
    steps != [] &&
    var front, step := steps[..|steps| - 1], steps[|steps| - 1];
    NextPending(Pending(s, front, r), Run(s, front), step, r)
  }

  ghost predicate NextPending(pending: bool, s: State, step: Step, r: Id) {
    if Exec(s, step).Err? then pending
    else if step.SubmitQuote? && step.rfq == r then true
    else if step.ApplyMarkup? && step.rfq == r then false
    else pending
  }

  ghost predicate AllMarked(s: State, steps: seq<Step>, r: Id) {
    var t := Run(s, steps);
    r in t.rfqs ==> forall q :: q in t.rfqs[r].quotes ==> SinceMarkup(s, steps, r, q.bid.supplier).Some?
  }

  /** The supplier of the submission has an unmarked quote now. */
  lemma PendingAfterSubmission(s: State, steps: seq<Step>, r: Id)
    requires steps != []
    requires var t, step := Run(s, steps[..|steps| - 1]), steps[|steps| - 1];
             step.SubmitQuote? && step.rfq == r && Exec(t, step).Ok?
    ensures Pending(s, steps, r) && !AllMarked(s, steps, r) && r in Run(s, steps).rfqs
  {
    var t, step := Run(s, steps[..|steps| - 1]), steps[|steps| - 1];
    var quotes := Apply(t, step).rfqs[r].quotes;
    assert quotes[|quotes| - 1] in quotes && quotes[|quotes| - 1].bid.supplier == step.supplier;
  }

  lemma NothingPendingAfterMarkup(s: State, steps: seq<Step>, r: Id)
    requires steps != []
    requires var t, step := Run(s, steps[..|steps| - 1]), steps[|steps| - 1];
             step.ApplyMarkup? && step.rfq == r && Exec(t, step).Ok?
    ensures !Pending(s, steps, r) && AllMarked(s, steps, r)
  {
  }

  /** Every other step leaves the quotes of r, their marks and what is pending alone. */
  lemma PendingElsewhere(s: State, steps: seq<Step>, r: Id)
    requires steps != [] && Fresh(Run(s, steps[..|steps| - 1])) && r in Run(s, steps[..|steps| - 1]).rfqs
    requires var t, step := Run(s, steps[..|steps| - 1]), steps[|steps| - 1];
             Exec(t, step).Err? || !((step.SubmitQuote? || step.ApplyMarkup?) && step.rfq == r)
    ensures r in Run(s, steps).rfqs
    ensures Pending(s, steps, r) <==> Pending(s, steps[..|steps| - 1], r)
    ensures AllMarked(s, steps, r) <==> AllMarked(s, steps[..|steps| - 1], r)
  {
    var front, step := steps[..|steps| - 1], steps[|steps| - 1];
    LaterStep(Run(s, front), step);
    QuotesElsewhere(Run(s, front), step, r);
    assert forall b :: SinceMarkup(s, steps, r, b) == SinceMarkup(s, front, r, b);
  }

  lemma QuotesElsewhere(s: State, step: Step, r: Id)
    requires Fresh(s) && r in s.rfqs && r in Apply(s, step).rfqs
    requires Exec(s, step).Err? || !((step.SubmitQuote? || step.ApplyMarkup?) && step.rfq == r)
    ensures Apply(s, step).rfqs[r].quotes == s.rfqs[r].quotes
  {
  }

  lemma PendingNew(s: State, steps: seq<Step>, r: Id)
    requires steps != [] && Fresh(Run(s, steps[..|steps| - 1])) && r !in Run(s, steps[..|steps| - 1]).rfqs
    requires !Pending(s, steps[..|steps| - 1], r)
    ensures !Pending(s, steps, r) && AllMarked(s, steps, r)
  {
    BookNew(Run(s, steps[..|steps| - 1]), steps[|steps| - 1], r);
  }

  /**
   In every run all quotes of an RFQ are marked up exactly when no submission was accepted since its last
   markup: what there is to check before it is sent to the purchaser, and for as long as it takes quotes.
   */
  lemma {:induction false} AllMarkedExactly(now: int, strict: bool, steps: seq<Step>, r: Id)
    ensures var s := Empty(now, strict);
            && (AllMarked(s, steps, r) <==> !Pending(s, steps, r))
            && (Pending(s, steps, r) ==> r in Run(s, steps).rfqs) && Fresh(Run(s, steps))
  {
    var s := Empty(now, strict);
    if steps != [] {
      var front, step := steps[..|steps| - 1], steps[|steps| - 1];
      var t := Run(s, front);
      AllMarkedExactly(now, strict, front, r);
      LaterStep(t, step);
      if r !in t.rfqs {
        PendingNew(s, steps, r);
      } else if Exec(t, step).Ok? && step.SubmitQuote? && step.rfq == r {
        PendingAfterSubmission(s, steps, r);
      } else if Exec(t, step).Ok? && step.ApplyMarkup? && step.rfq == r {
        NothingPendingAfterMarkup(s, steps, r);
      } else {
        PendingElsewhere(s, steps, r);
      }
    }
  }

  // ----- what every stored line says -----

  /** The stored line answers the item: its product, and a quantity and total as its status demands. */
  predicate Sold(item: Item, l: QuoteItem) {
    && item.product == Some(l.product) && item.quantity > 0
    && match l.status
       case NoBid => l.quantity == item.quantity && l.unitPrice == 0.0 && l.lineTotal == 0
       case Unrecognised => false
       case _ => 0 < l.quantity <= item.quantity && Priced(l)
  }

  ghost predicate LineSound(items: seq<Item>, l: QuoteItem) {
    exists i :: 0 <= i < |items| && Sold(items[i], l)
  }

  ghost predicate BidSound(items: seq<Item>, b: Bid) {
    forall l :: l in b.items ==> LineSound(items, l)
  }

  ghost predicate RfqSound(rfq: Rfq) {
    Positive(rfq.items) && forall q :: q in rfq.quotes ==> BidSound(rfq.items, q.bid)
  }

  ghost predicate LinesSound(s: State) {
    && (forall o :: o in s.orders ==> Positive(s.orders[o].items))
    && (forall r :: r in s.rfqs ==> RfqSound(s.rfqs[r]))
  }

  lemma PricedSound(items: seq<Item>, lines: seq<Line>)
    requires Positive(items) && PriceLines(items, lines).Ok?
    ensures forall l :: l in PriceLines(items, lines).value ==> LineSound(items, l)
  {
    PriceLinesMeaning(items, lines);
    var priced := PriceLines(items, lines).value;
    forall l | l in priced ensures LineSound(items, l) {
      var k :| 0 <= k < |priced| && priced[k] == l;
      assert Answered(items, lines[k], l);
      assert Sold(items[lines[k].item.value], l);
    }
  }

  lemma RequotedSound(rfq: Rfq, supplier: Id, lines: seq<Line>, leadDays: int, id: Id, strict: bool)
    requires RfqSound(rfq) && Requoted(rfq, supplier, lines, leadDays, id, strict).Ok?
    ensures RfqSound(Requoted(rfq, supplier, lines, leadDays, id, strict).value)
  {
    PricedSound(rfq.items, lines);
    WithoutSubset(rfq.quotes, supplier);
  }

  lemma MarkedSound(rfq: Rfq, pct: real)
    requires RfqSound(rfq)
    ensures RfqSound(rfq.(markup := StoredPct(pct), quotes := MarkQuotes(rfq.quotes, pct)))
  {
    var marked := MarkQuotes(rfq.quotes, pct);
    forall q | q in marked ensures BidSound(rfq.items, q.bid) {
      var i :| 0 <= i < |marked| && marked[i] == q;
      assert rfq.quotes[i] in rfq.quotes && q.bid == rfq.quotes[i].bid;
    }
  }

  lemma LinesSoundStep(s: State, step: Step)
    requires LinesSound(s)
    ensures LinesSound(Apply(s, step))
  {
    if Exec(s, step).Ok? {
      match step
      case SubmitQuote(r, supplier, _, lines, leadDays) =>
        RequotedSound(s.rfqs[r], supplier, lines, leadDays, s.nextId, s.strict);
      case ApplyMarkup(r, pct) => MarkedSound(s.rfqs[r], pct);
      case _ => LinesSoundOther(s, step);
    }
  }

  lemma LinesSoundOther(s: State, step: Step)
    requires LinesSound(s) && Exec(s, step).Ok? && !step.SubmitQuote? && !step.ApplyMarkup?
    ensures LinesSound(Apply(s, step))
  {
    forall r | r in Apply(s, step).rfqs ensures RfqSound(Apply(s, step).rfqs[r]) {
      if r in s.rfqs { assert RfqSound(s.rfqs[r]); }
    }
  }

  /**
   In every reachable state every stored line of a quote answers an item of its RFQ: a no-bid line is worth
   nothing, and any other has 0 < quantity <= requested and the total of its quantity and price.
   */
  lemma {:induction false} LinesSoundRun(now: int, strict: bool, steps: seq<Step>)
    ensures LinesSound(Run(Empty(now, strict), steps))
  {
    if steps != [] {
      LinesSoundRun(now, strict, steps[..|steps| - 1]);
      LinesSoundStep(Run(Empty(now, strict), steps[..|steps| - 1]), steps[|steps| - 1]);
    }
  }

  lemma SoldIsPriced(items: seq<Item>, b: Bid)
    requires BidSound(items, b)
    ensures AllPriced(b.items)
  {
    forall i | 0 <= i < |b.items| ensures Priced(b.items[i]) {
      assert LineSound(items, b.items[i]);
    }
  }

  /** In every reachable state a quote's total is within half a unit per line of what its lines are worth. */
  lemma QuoteTotalsNear(now: int, strict: bool, steps: seq<Step>, r: Id, q: Quote)
    requires r in Run(Empty(now, strict), steps).rfqs && q in Run(Empty(now, strict), steps).rfqs[r].quotes
    ensures AllPriced(q.bid.items) && TotalNear(q.bid.items, q.bid.total)
  {
    var s := Run(Empty(now, strict), steps);
    LinesSoundRun(now, strict, steps);
    TidyRun(now, strict, steps);
    assert Tidy(s, r) && RfqSound(s.rfqs[r]);
    SoldIsPriced(s.rfqs[r].items, q.bid);
    SumIsNear(q.bid.items);
  }

  // ----- a quote that reaches the purchaser unmarked -----

  const ONE_LINE := [Line(Some(0), Full, Some(1.0), None)]
  const WANTED := [Item(1, Some(7))]
  const PRICED_ONCE := [QuoteItem(7, 1, 1.0, 10000, Full, None)]
  const QUOTING := SubmitQuote(1, 5, true, ONE_LINE, 3)

  function Offer(id: Id, markedUp: int): Quote {
    Quote(id, Bid(5, PRICED_ONCE, 10000, 3), markedUp, markedUp)
  }

  function OnlyRfq(now: int, status: RfqStatus, markup: int, quotes: seq<Quote>): Rfq {
    Rfq(0, status, WANTED, now + 48, markup, 1, [5], |quotes|, quotes, None)
  }

  function Scene(now: int, strict: bool, order: OrderStatus, rfq: Rfq, nextId: Id): State {
    State(map[0 := Order(order, WANTED)], map[1 := rfq], nextId, now, strict)
  }

  lemma OneLinePriced()
    ensures PriceLines(WANTED, ONE_LINE) == Ok(PRICED_ONCE)
        && SumTotals(PRICED_ONCE) == 10000 && AllStorable(PRICED_ONCE)
  {
    RoundWhole(10000);
    assert LineTotal(1, 1.0) == 10000;
    var none: seq<QuoteItem> := [];
    assert PriceLines(WANTED, ONE_LINE[..|ONE_LINE| - 1]) == Ok(none);
    assert PriceLine(WANTED, ONE_LINE[0]) == Ok(PRICED_ONCE[0]) && none + [PRICED_ONCE[0]] == PRICED_ONCE;
    assert SumTotals(PRICED_ONCE[..0]) == 0;
  }

  lemma SceneSubmission(now: int, strict: bool, order: OrderStatus, status: RfqStatus,
                        markup: int, quotes: seq<Quote>, id: Id)
    requires status == Sent || status == Closed
    requires quotes == [] || (|quotes| == 1 && quotes[0].bid.supplier == 5)
    ensures Apply(Scene(now, strict, order, OnlyRfq(now, status, markup, quotes), id), QUOTING)
         == Scene(now, strict, order, OnlyRfq(now, status, markup, [Offer(id, 10000)]), id + 1)
  {
    OneLinePriced();
    var rfq := OnlyRfq(now, status, markup, quotes);
    if quotes != [] {
      assert quotes[..0] == [] && Quoted(quotes, 5);
    }
    assert Without(quotes, 5) == [];
    assert [] + [Offer(id, 10000)] == [Offer(id, 10000)];
    assert Requoted(rfq, 5, ONE_LINE, 3, id, strict) == Ok(OnlyRfq(now, status, markup, [Offer(id, 10000)]));
    var s := Scene(now, strict, order, rfq, id);
    assert s.rfqs[1 := OnlyRfq(now, status, markup, [Offer(id, 10000)])]
        == map[1 := OnlyRfq(now, status, markup, [Offer(id, 10000)])];
  }

  lemma SceneOpened(now: int, strict: bool)
    ensures Apply(Apply(Empty(now, strict), CreateOrder(WANTED)), FanOut(0, None, [5]))
         == Scene(now, strict, RfqSent, OnlyRfq(now, Sent, 0, []), 2)
  {
    var s := Apply(Empty(now, strict), CreateOrder(WANTED));
    assert s.orders == map[0 := Order(Draft, WANTED)];
    assert s.rfqs[1 := OnlyRfq(now, Sent, 0, [])] == map[1 := OnlyRfq(now, Sent, 0, [])];
    assert s.orders[0 := Order(RfqSent, WANTED)] == map[0 := Order(RfqSent, WANTED)];
  }

  lemma SceneMarked(now: int, strict: bool)
    ensures Apply(Scene(now, strict, RfqSent, OnlyRfq(now, Sent, 0, [Offer(2, 10000)]), 3), ApplyMarkup(1, 10.0))
         == Scene(now, strict, RfqSent, OnlyRfq(now, Sent, 1000, [Offer(2, 11000)]), 3)
  {
    var s := Scene(now, strict, RfqSent, OnlyRfq(now, Sent, 0, [Offer(2, 10000)]), 3);
    TenPercent();
    assert MarkQuotes([Offer(2, 10000)], 10.0) == [Offer(2, 11000)];
    var t := Scene(now, strict, RfqSent, OnlyRfq(now, Sent, 1000, [Offer(2, 11000)]), 3);
    assert Apply(s, ApplyMarkup(1, 10.0)).rfqs == t.rfqs;
  }

  lemma SceneSent(now: int, strict: bool, markup: int, quotes: seq<Quote>, id: Id)
    ensures Apply(Scene(now, strict, RfqSent, OnlyRfq(now, Sent, markup, quotes), id), SendToPurchaser(1))
         == Scene(now, strict, RfqClosed, OnlyRfq(now, Closed, markup, quotes), id)
  {
    var s := Scene(now, strict, RfqSent, OnlyRfq(now, Sent, markup, quotes), id);
    var t := Scene(now, strict, RfqClosed, OnlyRfq(now, Closed, markup, quotes), id);
    assert Apply(s, SendToPurchaser(1)).rfqs == t.rfqs && Apply(s, SendToPurchaser(1)).orders == t.orders;
  }

  lemma TenPercent()
    ensures MarkedUp(10000, 10.0) == 11000 && StoredPct(10.0) == 1000
  {
    RoundWhole(11000);
    assert Exact(10000, Factor(10.0)) == 11000.0;
  }

  lemma RunThree(s: State, steps: seq<Step>, a: Step, b: Step, c: Step)
    ensures Run(s, steps + [a, b, c]) == Apply(Apply(Apply(Run(s, steps), a), b), c)
  {
    RunSnoc(s, steps, a);
    RunSnoc(s, steps + [a], b);
    RunSnoc(s, steps + [a] + [b], c);
    assert steps + [a, b, c] == steps + [a] + [b] + [c];
  }

  /** Sent out and quoted: the calls both runs below begin with. */
  lemma SceneQuoted(now: int, strict: bool)
    ensures Run(Empty(now, strict), [CreateOrder(WANTED), FanOut(0, None, [5]), QUOTING])
         == Scene(now, strict, RfqSent, OnlyRfq(now, Sent, 0, [Offer(2, 10000)]), 3)
  {
    var a, b, c := CreateOrder(WANTED), FanOut(0, None, [5]), QUOTING;
    RunThree(Empty(now, strict), [], a, b, c);
    assert [] + [a, b, c] == [a, b, c];
    SceneOpened(now, strict);
    SceneSubmission(now, strict, RfqSent, Sent, 0, [], 2);
  }

  /** Sent out, quoted, marked up by ten percent, closed, and quoted again: the purchaser sees the plain total. */
  lemma UnmarkedReachesPurchaser(now: int, strict: bool)
    ensures var steps := [CreateOrder(WANTED), FanOut(0, None, [5]), QUOTING, ApplyMarkup(1, 10.0),
                          SendToPurchaser(1), QUOTING];
            var t := Run(Empty(now, strict), steps);
            1 in t.rfqs && t.rfqs[1] == OnlyRfq(now, Closed, 1000, [Offer(3, 10000)]) && MarkedUp(10000, 10.0) == 11000
  {
    var s := Empty(now, strict);
    var a, b, c, d, e := CreateOrder(WANTED), FanOut(0, None, [5]), QUOTING, ApplyMarkup(1, 10.0), SendToPurchaser(1);
    SceneQuoted(now, strict);
    RunThree(s, [a, b, c], d, e, c);
    assert [a, b, c] + [d, e, c] == [a, b, c, d, e, c];
    SceneMarked(now, strict);
    SceneSent(now, strict, 1000, [Offer(2, 11000)], 3);
    SceneSubmission(now, strict, RfqClosed, Closed, 1000, [Offer(2, 11000)], 3);
    TenPercent();
  }

  /** Resubmitting between the markup and the closing has the same end: every submission came while SENT. */
  lemma UnmarkedWithoutLateQuotes(now: int, strict: bool)
    ensures var steps := [CreateOrder(WANTED), FanOut(0, None, [5]), QUOTING, ApplyMarkup(1, 10.0), QUOTING,
                          SendToPurchaser(1)];
            var t := Run(Empty(now, strict), steps);
            1 in t.rfqs && t.rfqs[1] == OnlyRfq(now, Closed, 1000, [Offer(3, 10000)])
  {
    var s := Empty(now, strict);
    var a, b, c, d, e := CreateOrder(WANTED), FanOut(0, None, [5]), QUOTING, ApplyMarkup(1, 10.0), SendToPurchaser(1);
    SceneQuoted(now, strict);
    RunThree(s, [a, b, c], d, c, e);
    assert [a, b, c] + [d, c, e] == [a, b, c, d, c, e];
    SceneMarked(now, strict);
    SceneSubmission(now, strict, RfqSent, Sent, 1000, [Offer(2, 11000)], 3);
    SceneSent(now, strict, 1000, [Offer(3, 10000)], 4);
  }

  /** A form whose only line declines the item: refused where the quantity check is deployed, accepted elsewhere. */
  lemma NoBidFormExactly(now: int, strict: bool)
    ensures var s := Scene(now, strict, RfqSent, OnlyRfq(now, Sent, 0, []), 2);
            Exec(s, SubmitQuote(1, 5, true, [Line(Some(0), NoBid, None, None)], 3)).Ok? <==> !strict
  {
    var s := Scene(now, strict, RfqSent, OnlyRfq(now, Sent, 0, []), 2);
    SubmissionAccepted(s, 1, 5, true, [Line(Some(0), NoBid, None, None)], 3);
    assert Valid(WANTED, Line(Some(0), NoBid, None, None));
  }
}
