/** What a score says: how far two bids lie apart, where the scale begins, and that the returned rows carry it. */
module Spacing {
  import opened Wrappers
  import opened Rounding
  import opened Scoring
  import Sorting

  /** The cheapest bid costs lo, the dearest hi. */
  ghost predicate TotalsSpan(bids: seq<Bid>, lo: real, hi: real) {
    && (forall i :: 0 <= i < |bids| ==> lo <= bids[i].total <= hi)
    && (exists i :: 0 <= i < |bids| && bids[i].total == lo)
    && (exists i :: 0 <= i < |bids| && bids[i].total == hi)
  }

  /** The fastest bid takes lo days, the slowest hi. */
  ghost predicate LeadsSpan(bids: seq<Bid>, lo: int, hi: int) {
    && (forall i :: 0 <= i < |bids| ==> lo <= bids[i].lead <= hi)
    && (exists i :: 0 <= i < |bids| && bids[i].lead == lo)
    && (exists i :: 0 <= i < |bids| && bids[i].lead == hi)
  }

  /** s is the share that x earns: everything when all values agree; otherwise it falls in proportion to x and
     reaches nothing at hi. A span below 10^-9 counts as that. */
  ghost predicate Share(s: real, x: real, lo: real, hi: real) {
    if lo == hi then s == 1.0
    else if hi - lo >= 0.000000001 then s * (hi - lo) == hi - x
    else s * 0.000000001 == hi - x
  }

  /** A score made of shares, the ratings counting in fifths. */
  ghost predicate Composed(score: real, w: Weights, b: Bid, s: real, t: real) {
    score == w.price * s + w.lead * t + w.reliability * (b.reliability.GetOr(0.0) / 5.0)
             + w.quality * (b.quality.GetOr(0.0) / 5.0)
  }

  lemma ShareOfValues(x: real, values: seq<real>, lo: real, hi: real)
    requires lo in values && hi in values && forall v :: v in values ==> lo <= v <= hi
    ensures Share(Inverted(x, values), x, lo, hi)
  {
    assert MinOf(values) == lo && MaxOf(values) == hi;
  }

  lemma TotalsAre(bids: seq<Bid>, lo: real, hi: real)
    requires TotalsSpan(bids, lo, hi)
    ensures lo in Totals(bids) && hi in Totals(bids) && forall v :: v in Totals(bids) ==> lo <= v <= hi
  {
    var i :| 0 <= i < |bids| && bids[i].total == lo;
    var j :| 0 <= j < |bids| && bids[j].total == hi;
    assert Totals(bids)[i] == lo && Totals(bids)[j] == hi;
  }

  lemma LeadsAre(bids: seq<Bid>, lo: int, hi: int)
    requires LeadsSpan(bids, lo, hi)
    ensures lo as real in Leads(bids) && hi as real in Leads(bids)
    ensures forall v :: v in Leads(bids) ==> lo as real <= v <= hi as real
  {
    var i :| 0 <= i < |bids| && bids[i].lead == lo;
    var j :| 0 <= j < |bids| && bids[j].lead == hi;
    assert Leads(bids)[i] == lo as real && Leads(bids)[j] == hi as real;
  }

  /** Every exact score is the weighted sum of the shares of its total and its lead time, and of its ratings. */
  lemma ScoreFormula(w: Weights, bids: seq<Bid>, i: nat, lo: real, hi: real, fast: int, slow: int)
    returns (s: real, t: real)
    requires i < |bids| && TotalsSpan(bids, lo, hi) && LeadsSpan(bids, fast, slow)
    ensures Share(s, bids[i].total, lo, hi) && Share(t, bids[i].lead as real, fast as real, slow as real)
    ensures Composed(Scores(w, bids)[i], w, bids[i], s, t)
  {
    s, t := Inverted(bids[i].total, Totals(bids)), Inverted(bids[i].lead as real, Leads(bids));
    TotalsAre(bids, lo, hi);
    LeadsAre(bids, fast, slow);
    ShareOfValues(bids[i].total, Totals(bids), lo, hi);
    ShareOfValues(bids[i].lead as real, Leads(bids), fast as real, slow as real);
  }

  // ----- how far apart -----

  /** Two shares lie as far apart as their values, measured in the span. */
  lemma SharesApart(s: real, s': real, x: real, x': real, lo: real, hi: real)
    requires Share(s, x, lo, hi) && Share(s', x', lo, hi) && hi - lo >= 0.000000001
    ensures s - s' == (x' - x) / (hi - lo)
  {
    assert (s - s') * (hi - lo) == x' - x;
  }

  lemma PricePartsApart(w: Weights, s: real, s': real, t: real, r: real, q: real)
    ensures Weighted(w, s, t, r, q) - Weighted(w, s', t, r, q) == w.price * (s - s')
  {
    ScaleApart(w.price, s', s);
  }

  /** Bids alike in all but their totals: the scores differ by the price weight times the difference in the span. */
  lemma PriceSpacing(w: Weights, bids: seq<Bid>, i: nat, j: nat, lo: real, hi: real)
    requires i < |bids| && j < |bids| && TotalsSpan(bids, lo, hi) && hi - lo >= 0.000000001
    requires bids[i].lead == bids[j].lead
    requires bids[i].reliability == bids[j].reliability && bids[i].quality == bids[j].quality
    ensures Scores(w, bids)[i] - Scores(w, bids)[j] == w.price * ((bids[j].total - bids[i].total) / (hi - lo))
  {
    TotalsAre(bids, lo, hi);
    var s, s' := Inverted(bids[i].total, Totals(bids)), Inverted(bids[j].total, Totals(bids));
    ShareOfValues(bids[i].total, Totals(bids), lo, hi);
    ShareOfValues(bids[j].total, Totals(bids), lo, hi);
    SharesApart(s, s', bids[i].total, bids[j].total, lo, hi);
    PricePartsApart(w, s, s', Inverted(bids[i].lead as real, Leads(bids)),
                    bids[i].reliability.GetOr(0.0) / 5.0, bids[i].quality.GetOr(0.0) / 5.0);
  }

  lemma LeadPartsApart(w: Weights, p: real, t: real, t': real, r: real, q: real)
    ensures Weighted(w, p, t, r, q) - Weighted(w, p, t', r, q) == w.lead * (t - t')
  {
    ScaleApart(w.lead, t', t);
  }

  /** The same for lead times. */
  lemma LeadSpacing(w: Weights, bids: seq<Bid>, i: nat, j: nat, fast: int, slow: int)
    requires i < |bids| && j < |bids| && LeadsSpan(bids, fast, slow) && fast < slow
    requires bids[i].total == bids[j].total
    requires bids[i].reliability == bids[j].reliability && bids[i].quality == bids[j].quality
    ensures Scores(w, bids)[i] - Scores(w, bids)[j]
         == w.lead * ((bids[j].lead - bids[i].lead) as real / (slow - fast) as real)
  {
    LeadsAre(bids, fast, slow);
    var t, t' := Inverted(bids[i].lead as real, Leads(bids)), Inverted(bids[j].lead as real, Leads(bids));
    ShareOfValues(bids[i].lead as real, Leads(bids), fast as real, slow as real);
    ShareOfValues(bids[j].lead as real, Leads(bids), fast as real, slow as real);
    SharesApart(t, t', bids[i].lead as real, bids[j].lead as real, fast as real, slow as real);
    LeadPartsApart(w, Inverted(bids[i].total, Totals(bids)), t, t',
                   bids[i].reliability.GetOr(0.0) / 5.0, bids[i].quality.GetOr(0.0) / 5.0);
  }

  lemma FifthsApart(w: real, r: real, r': real)
    ensures w * (r / 5.0) - w * (r' / 5.0) == w * ((r - r') / 5.0)
  {
  }

  /** Bids alike in total and lead time differ by what their ratings weigh, in fifths; a missing rating counts 0. */
  lemma RatingSpacing(w: Weights, bids: seq<Bid>, i: nat, j: nat)
    requires i < |bids| && j < |bids| && bids[i].total == bids[j].total && bids[i].lead == bids[j].lead
    ensures Scores(w, bids)[i] - Scores(w, bids)[j]
         == w.reliability * ((bids[i].reliability.GetOr(0.0) - bids[j].reliability.GetOr(0.0)) / 5.0)
            + w.quality * ((bids[i].quality.GetOr(0.0) - bids[j].quality.GetOr(0.0)) / 5.0)
  {
    FifthsApart(w.reliability, bids[i].reliability.GetOr(0.0), bids[j].reliability.GetOr(0.0));
    FifthsApart(w.quality, bids[i].quality.GetOr(0.0), bids[j].quality.GetOr(0.0));
  }

  /** The scale begins at 0 with a bid that is dearest, slowest and unrated. */
  lemma ScaleBeginsAtZero(w: Weights, bids: seq<Bid>, i: nat, lo: real, hi: real, fast: int, slow: int)
    requires i < |bids| && TotalsSpan(bids, lo, hi) && LeadsSpan(bids, fast, slow) && lo < hi && fast < slow
    requires bids[i].total == hi && bids[i].lead == slow
    requires bids[i].reliability.GetOr(0.0) == 0.0 && bids[i].quality.GetOr(0.0) == 0.0
    ensures Scores(w, bids)[i] == 0.0
  {
    var s, t := ScoreFormula(w, bids, i, lo, hi, fast, slow);
    assert s == 0.0 && t == 0.0;
  }

  // ----- from the weights given to the rows returned -----

  /** The weights in force when none are given. */
  lemma Defaults(engine: Engine, bids: seq<Bid>)
    ensures Judge(engine, bids, None)
         == Judge(engine, bids, Some(if engine.Simulation? then Weights(0.4, 0.2, 0.2, 0.2)
                                     else Weights(0.5, 0.2, 0.2, 0.1)))
  {
  }

  /** What the row of a bid says, where score is exact. */
  ghost predicate Reports(row: Row, b: Bid, score: real) {
    && row.quoteId == b.quote && row.supplierId == Some(b.supplier) && row.currency == b.currency
    && row.lead == Some(b.lead) && row.reliability == b.reliability && row.quality == b.quality
    && row.total.Some? && Nearest(b.total * 10000.0, row.total.value)
    && row.score.Some? && Nearest(score * 1000000.0, row.score.value)
  }

  lemma RowReports(w: Weights, bids: seq<Bid>, i: nat)
    requires i < |bids|
    ensures Reports(Rows(w, bids)[i], bids[i], Scores(w, bids)[i])
  {
  }

  lemma RowIsReturned(w: Weights, bids: seq<Bid>, i: nat)
    requires i < |bids|
    ensures |Judged(w, bids).results| == |bids| && Rows(w, bids)[i] in Judged(w, bids).results
  {
    ResultsRanked(w, bids);
    Sorting.SameMembers(Judged(w, bids).results, Rows(w, bids));
    assert |multiset(Judged(w, bids).results)| == |multiset(Rows(w, bids))|;
    assert Rows(w, bids)[i] in Rows(w, bids);
  }

  lemma Divided(a: real, v: real, k: real)
    requires k != 0.0
    ensures (a / k) * v == (a * v) / k
  {
    var q := a / k;
    assert q * k == a;
    assert (q * v) * k == (q * k) * v;
  }

  lemma SumDivided(a: real, b: real, c: real, d: real, k: real)
    requires k != 0.0
    ensures a / k + b / k + c / k + d / k == (a + b + c + d) / k
  {
  }

  lemma DividedScore(w: Weights, k: real, p: real, l: real, r: real, q: real)
    requires k != 0.0
    ensures (w.price / k) * p + (w.lead / k) * l + (w.reliability / k) * r + (w.quality / k) * q
         == (w.price * p + w.lead * l + w.reliability * r + w.quality * q) / k
  {
    Divided(w.price, p, k);
    Divided(w.lead, l, k);
    Divided(w.reliability, r, k);
    Divided(w.quality, q, k);
    SumDivided(w.price * p, w.lead * l, w.reliability * r, w.quality * q, k);
  }

  lemma ComposedOver(w: Weights, k: real, b: Bid, s: real, t: real, y: real) returns (x: real)
    requires k != 0.0
    requires Composed(y, Weights(w.price / k, w.lead / k, w.reliability / k, w.quality / k), b, s, t)
    ensures Composed(x, w, b, s, t) && y == x / k
  {
    var r, q := b.reliability.GetOr(0.0) / 5.0, b.quality.GetOr(0.0) / 5.0;
    x := w.price * s + w.lead * t + w.reliability * r + w.quality * q;
    DividedScore(w, k, s, t, r, q);
  }

  /** The weights actually used: those given, divided by their sum unless that is 0. */
  lemma UsedWeights(engine: Engine, w: Weights) returns (used: Weights, k: real)
    requires Normalise(engine, w).Ok?
    ensures k == if w.price + w.lead + w.reliability + w.quality == 0.0 then 1.0
                 else w.price + w.lead + w.reliability + w.quality
    ensures used == Weights(w.price / k, w.lead / k, w.reliability / k, w.quality / k)
    ensures Normalise(engine, w) == Ok(used)
  {
    k := if w.Sum() == 0.0 then 1.0 else w.Sum();
    used := Weights(w.price / k, w.lead / k, w.reliability / k, w.quality / k);
  }

  /** One row per bid; each carries the weighted sum of the shares under the weights as given, over their sum. */
  lemma RowsCarryScores(engine: Engine, bids: seq<Bid>, w: Weights, i: nat,
                        lo: real, hi: real, fast: int, slow: int) returns (row: Row, x: real, s: real, t: real)
    requires i < |bids| && TotalsSpan(bids, lo, hi) && LeadsSpan(bids, fast, slow)
    requires Judge(engine, bids, Some(w)).Ok?
    ensures var results := Judge(engine, bids, Some(w)).value.results; |results| == |bids| && row in results
    ensures Share(s, bids[i].total, lo, hi) && Share(t, bids[i].lead as real, fast as real, slow as real)
    ensures Composed(x, w, bids[i], s, t)
    ensures var sum := w.price + w.lead + w.reliability + w.quality;
            Reports(row, bids[i], x / (if sum == 0.0 then 1.0 else sum))
  {
    var used, k := UsedWeights(engine, w);
    s, t := ScoreFormula(used, bids, i, lo, hi, fast, slow);
    x := ComposedOver(w, k, bids[i], s, t, Scores(used, bids)[i]);
    row := Rows(used, bids)[i];
    RowReports(used, bids, i);
    RowIsReturned(used, bids, i);
  }
}
