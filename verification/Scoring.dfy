/**
 * Bid scoring, as market_sim._score_bids and the scoring part of rfq.compare_quotes do it: a weighted sum of four
 * normalised sub-scores, a running winner, and rows sorted by rounded score. Scores are exact reals; a row holds the
 * score in units of 10^-6 and the total in units of 10^-4.
 */
module Scoring {
  import opened Wrappers
  import opened Rounding
  import Sorting

  datatype Weights = Weights(price: real, lead: real, reliability: real, quality: real) {
    function Sum(): real {
      price + lead + reliability + quality
    }

    function Over(k: real): Weights
      requires k != 0.0
    {
      Weights(price / k, lead / k, reliability / k, quality / k)
    }

    function Times(k: real): Weights {
      Weights(price * k, lead * k, reliability * k, quality * k)
    }

    predicate IsZero() {
      price == lead == reliability == quality == 0.0
    }

    predicate NonNegative() {
      0.0 <= price && 0.0 <= lead && 0.0 <= reliability && 0.0 <= quality
    }
  }


  /** A bid with what is known of its supplier; an unknown supplier has no currency and no ratings. */
  datatype Bid = Bid(quote: Option<string>, supplier: string, total: real, lead: int,
                     currency: Option<string>, reliability: Option<real>, quality: Option<real>)
  {
    function Id(): string {
      quote.GetOr(supplier)
    }
  }

  /** One entry of the results list. */
  datatype Row = Row(quoteId: Option<string>, supplierId: Option<string>, score: Option<int>, total: Option<int>,
                     currency: Option<string>, lead: Option<int>, reliability: Option<real>, quality: Option<real>)

  /** The simulation divides by 1 when the weights cancel out; the comparison refuses a sum that is not positive. */
  datatype Engine = Simulation | Comparison {
    /** The weights used when none are given. */
    function DefaultWeights(): Weights {
      match this
      case Simulation => Weights(0.4, 0.2, 0.2, 0.2)
      case Comparison => Weights(0.5, 0.2, 0.2, 0.1)
    }
  }

  datatype Error = BadWeights
  datatype Outcome = Outcome(results: seq<Row>, winner: Option<string>)

  function MaxOf(s: seq<real>): (m: real)
    requires s != []
    ensures m in s && forall x :: x in s ==> x <= m
  {
    if |s| == 1 then s[0]
    else
      assert s == [s[0]] + s[1..];
      var m := MaxOf(s[1..]);
      if s[0] > m then s[0] else m
  }

  function MinOf(s: seq<real>): (m: real)
    requires s != []
    ensures m in s && forall x :: x in s ==> m <= x
  {
    if |s| == 1 then s[0]
    else
      assert s == [s[0]] + s[1..];
      var m := MinOf(s[1..]);
      if s[0] < m then s[0] else m
  }

  function Totals(bids: seq<Bid>): seq<real> {
    Sorting.Map((b: Bid) => b.total, bids)
  }

  function Leads(bids: seq<Bid>): seq<real> {
    Sorting.Map((b: Bid) => b.lead as real, bids)
  }

  /** Lower is better: 1 at the lowest value, falling towards 0 at the highest. */
  function Inverted(x: real, values: seq<real>): real
    requires values != []
  {
    var lo, hi := MinOf(values), MaxOf(values);
    if hi > lo then (hi - x) / (if hi - lo > 0.000000001 then hi - lo else 0.000000001) else 1.0
  }

  function Weighted(w: Weights, price: real, lead: real, reliability: real, quality: real): real {
    w.price * price + w.lead * lead + w.reliability * reliability + w.quality * quality
  }

  function Score(w: Weights, bids: seq<Bid>, b: Bid): real
    requires bids != []
  {
    Weighted(w, Inverted(b.total, Totals(bids)), Inverted(b.lead as real, Leads(bids)),
             b.reliability.GetOr(0.0) / 5.0, b.quality.GetOr(0.0) / 5.0)
  }

  function RowOf(w: Weights, bids: seq<Bid>, b: Bid): Row
    requires bids != []
  {
    Row(b.quote, Some(b.supplier), Some(RoundHalfEven(Score(w, bids, b) * 1000000.0)),
        Some(RoundHalfEven(b.total * 10000.0)), b.currency, Some(b.lead), b.reliability, b.quality)
  }

  /** sort(key=score, reverse=True): larger rounded scores first, ties in their old order. */
  predicate Higher(a: Row, b: Row) {
    a.score.GetOr(0) > b.score.GetOr(0)
  }

  function Scores(w: Weights, bids: seq<Bid>): (r: seq<real>)
    ensures |r| == |bids|
  {
    seq(|bids|, i requires 0 <= i < |bids| => Score(w, bids, bids[i]))
  }

  function Rows(w: Weights, bids: seq<Bid>): (r: seq<Row>)
    ensures |r| == |bids|
  {
    seq(|bids|, i requires 0 <= i < |bids| => RowOf(w, bids, bids[i]))
  }

  /** The first place of the greatest score; nothing when no score exceeds the starting mark of -1. */
  function Leader(scores: seq<real>): (r: Option<nat>)
    ensures r.Some? ==> r.value < |scores| && FirstBest(scores, r.value) && scores[r.value] > -1.0
    ensures r.None? <==> forall i :: 0 <= i < |scores| ==> scores[i] <= -1.0
  {
    if scores == [] then None
    else
      var last := |scores| - 1;
      var r := Leader(scores[..last]);
      if scores[last] > (if r.Some? then scores[r.value] else -1.0) then Some(last) else r
  }

  /** The running best score. */
  function Mark(scores: seq<real>): real {
    var r := Leader(scores);
    if r.Some? then scores[r.value] else -1.0
  }

  function LeadingBid(bids: seq<Bid>, scores: seq<real>): Option<Bid>
    requires |scores| <= |bids|
  {
    var r := Leader(scores);
    if r.Some? then Some(bids[r.value]) else None
  }

  ghost predicate FirstBest(scores: seq<real>, i: nat)
    requires i < |scores|
  {
    && (forall j :: 0 <= j < |scores| ==> scores[j] <= scores[i])
    && (forall j :: 0 <= j < i ==> scores[j] < scores[i])
  }

  function Normalise(engine: Engine, w: Weights): Result<Weights, Error> {
    match engine
    case Simulation => Ok(w.Over(if w.Sum() == 0.0 then 1.0 else w.Sum()))
    case Comparison => if w.Sum() <= 0.0 then Err(BadWeights) else Ok(w.Over(w.Sum()))
  }

  /** What scoring with normalised weights yields. */
  function Judged(w: Weights, bids: seq<Bid>): Outcome {
    var winner := LeadingBid(bids, Scores(w, bids));
    Outcome(Sorting.Sort(Higher, Rows(w, bids)), if winner.Some? then Some(winner.value.Id()) else None)
  }

  function Judge(engine: Engine, bids: seq<Bid>, weights: Option<Weights>): Result<Outcome, Error> {
    var w := Normalise(engine, weights.GetOr(engine.DefaultWeights()));
    if w.Err? then Err(w.error) else Ok(Judged(w.value, bids))
  }

  lemma LeaderSnoc(scores: seq<real>, n: nat)
    requires n < |scores|
    ensures Leader(scores[..n + 1]) == if scores[n] > Mark(scores[..n]) then Some(n) else Leader(scores[..n])
  {
    assert scores[..n + 1][..n] == scores[..n];
  }

  /** The score, the row and the running winner after bid i. */
  method ScoreAll(w: Weights, bids: seq<Bid>) returns (results: seq<Row>, winner: Option<Bid>)
    requires bids != []
    ensures results == Sorting.Sort(Higher, Rows(w, bids))
    ensures winner == LeadingBid(bids, Scores(w, bids))
  {
    results, winner := [], None;
    var best := -1.0;
    ghost var scores, rows := Scores(w, bids), Rows(w, bids);
    for i := 0 to |bids|
      invariant results == rows[..i]
      invariant best == Mark(scores[..i]) && winner == LeadingBid(bids, scores[..i])
    {
      LeaderSnoc(scores, i);
      var score := Score(w, bids, bids[i]);
      assert score == scores[i] && RowOf(w, bids, bids[i]) == rows[i];
      results := results + [RowOf(w, bids, bids[i])];
      if score > best {
        best := score;
        winner := Some(bids[i]);
      }
    }
    assert scores[..|bids|] == scores && rows[..|bids|] == rows;
    results := Sorting.Sort(Higher, results);
  }

  method ScoreBids(engine: Engine, bids: seq<Bid>, weights: Option<Weights>) returns (r: Result<Outcome, Error>)
    ensures engine.Simulation? && bids == [] ==> r == Ok(Outcome([], None))
    ensures r == Judge(engine, bids, weights)
  {
    var w := Normalise(engine, weights.GetOr(engine.DefaultWeights()));
    if w.Err? { return Err(w.error); }
    if bids == [] { return Ok(Outcome([], None)); }
    var results, winner := ScoreAll(w.value, bids);
    return Ok(Outcome(results, if winner.Some? then Some(winner.value.Id()) else None));
  }

  // ----- every score lies in [0, 1] -----

  lemma Fraction(a: real, d: real)
    requires 0.0 <= a <= d && 0.0 < d
    ensures 0.0 <= a / d <= 1.0
  {
  }

  lemma SmallerFraction(a: real, b: real, d: real)
    requires a <= b && 0.0 < d
    ensures a / d <= b / d
  {
  }

  lemma InvertedRange(x: real, values: seq<real>)
    requires x in values
    ensures 0.0 <= Inverted(x, values) <= 1.0
  {
    var lo, hi := MinOf(values), MaxOf(values);
    if hi > lo { Fraction(hi - x, if hi - lo > 0.000000001 then hi - lo else 0.000000001); }
  }

  lemma InvertedMonotone(x: real, y: real, values: seq<real>)
    requires values != [] && x <= y
    ensures Inverted(y, values) <= Inverted(x, values)
  {
    var lo, hi := MinOf(values), MaxOf(values);
    if hi > lo { SmallerFraction(hi - y, hi - x, if hi - lo > 0.000000001 then hi - lo else 0.000000001); }
  }

  lemma Portion(w: real, v: real)
    requires 0.0 <= w && 0.0 <= v <= 1.0
    ensures 0.0 <= w * v <= w
  {
  }

  lemma AddBounds(a: real, b: real, c: real, d: real)
    requires 0.0 <= a <= c && 0.0 <= b <= d
    ensures 0.0 <= a + b <= c + d
  {
  }

  lemma TwoPortions(w: real, v: real, w': real, v': real)
    requires 0.0 <= w && 0.0 <= v <= 1.0 && 0.0 <= w' && 0.0 <= v' <= 1.0
    ensures 0.0 <= w * v + w' * v' <= w + w'
  {
    Portion(w, v);
    Portion(w', v');
    AddBounds(w * v, w' * v', w, w');
  }

  lemma OverSum(w: Weights, k: real)
    requires k != 0.0
    ensures w.Over(k).Sum() == w.Sum() / k
  {
  }

  /** Weights with a positive sum are normalised to a sum of 1 by both engines, and stay non-negative. */
  lemma NormalisedWeights(engine: Engine, w: Weights)
    requires w.Sum() > 0.0
    ensures Normalise(engine, w) == Ok(w.Over(w.Sum())) && w.Over(w.Sum()).Sum() == 1.0
    ensures w.NonNegative() ==> w.Over(w.Sum()).NonNegative()
  {
    OverSum(w, w.Sum());
    if w.NonNegative() {
      SmallerFraction(0.0, w.price, w.Sum());
      SmallerFraction(0.0, w.lead, w.Sum());
      SmallerFraction(0.0, w.reliability, w.Sum());
      SmallerFraction(0.0, w.quality, w.Sum());
    }
  }

  lemma WeightedRange(w: Weights, p: real, l: real, r: real, q: real)
    requires w.NonNegative() && w.Sum() == 1.0
    requires 0.0 <= p <= 1.0 && 0.0 <= l <= 1.0 && 0.0 <= r <= 1.0 && 0.0 <= q <= 1.0
    ensures 0.0 <= Weighted(w, p, l, r, q) <= 1.0
  {
    TwoPortions(w.price, p, w.lead, l);
    TwoPortions(w.reliability, r, w.quality, q);
  }

  predicate Rated(b: Bid) {
    0.0 <= b.reliability.GetOr(0.0) <= 5.0 && 0.0 <= b.quality.GetOr(0.0) <= 5.0
  }

  lemma ScoreRange(w: Weights, bids: seq<Bid>, b: Bid)
    requires b in bids && Rated(b) && w.NonNegative() && w.Sum() == 1.0
    ensures 0.0 <= Score(w, bids, b) <= 1.0
  {
    var i :| 0 <= i < |bids| && bids[i] == b;
    assert Totals(bids)[i] == b.total && Leads(bids)[i] == b.lead as real;
    InvertedRange(b.total, Totals(bids));
    InvertedRange(b.lead as real, Leads(bids));
    WeightedRange(w, Inverted(b.total, Totals(bids)), Inverted(b.lead as real, Leads(bids)),
                  b.reliability.GetOr(0.0) / 5.0, b.quality.GetOr(0.0) / 5.0);
  }

  // ----- a bid that is at least as good never scores lower -----

  predicate AsGood(a: Bid, b: Bid) {
    && a.total <= b.total && a.lead <= b.lead
    && a.reliability.GetOr(0.0) >= b.reliability.GetOr(0.0) && a.quality.GetOr(0.0) >= b.quality.GetOr(0.0)
  }

  lemma TwoTerms(w: real, u: real, v: real, w': real, u': real, v': real)
    requires 0.0 <= w && 0.0 <= w' && u <= v && u' <= v'
    ensures w * u + w' * u' <= w * v + w' * v'
  {
    ScaleRight(u, v, w);
    ScaleRight(u', v', w');
  }

  lemma WeightedMonotone(w: Weights, p: real, l: real, r: real, q: real, p': real, l': real, r': real, q': real)
    requires w.NonNegative() && p <= p' && l <= l' && r <= r' && q <= q'
    ensures Weighted(w, p, l, r, q) <= Weighted(w, p', l', r', q')
  {
    TwoTerms(w.price, p, p', w.lead, l, l');
    TwoTerms(w.reliability, r, r', w.quality, q, q');
  }

  lemma ScoreMonotone(w: Weights, bids: seq<Bid>, a: Bid, b: Bid)
    requires bids != [] && w.NonNegative() && AsGood(a, b)
    ensures Score(w, bids, b) <= Score(w, bids, a)
  {
    InvertedMonotone(a.total, b.total, Totals(bids));
    InvertedMonotone(a.lead as real, b.lead as real, Leads(bids));
    WeightedMonotone(w, Inverted(b.total, Totals(bids)), Inverted(b.lead as real, Leads(bids)),
                     b.reliability.GetOr(0.0) / 5.0, b.quality.GetOr(0.0) / 5.0,
                     Inverted(a.total, Totals(bids)), Inverted(a.lead as real, Leads(bids)),
                     a.reliability.GetOr(0.0) / 5.0, a.quality.GetOr(0.0) / 5.0);
  }

  // ----- rescaling the weights -----

  lemma RescaledFraction(v: real, s: real, k: real, t: real)
    requires s != 0.0 && t == s * k && t != 0.0
    ensures (v * k) / t == v / s
  {
    var q := v / s;
    assert q * s == v;
    assert q * t == (q * s) * k;
  }

  lemma TimesSum(w: Weights, k: real)
    ensures w.Times(k).Sum() == w.Sum() * k
  {
  }

  lemma RescaledOver(w: Weights, s: real, k: real, t: real)
    requires s != 0.0 && t == s * k && t != 0.0
    ensures w.Times(k).Over(t) == w.Over(s)
  {
    RescaledFraction(w.price, s, k, t);
    RescaledFraction(w.lead, s, k, t);
    RescaledFraction(w.reliability, s, k, t);
    RescaledFraction(w.quality, s, k, t);
  }

  lemma SameSign(s: real, k: real)
    requires k > 0.0
    ensures (s * k <= 0.0 <==> s <= 0.0) && (s * k == 0.0 <==> s == 0.0)
  {
  }

  lemma NormalisedAlike(engine: Engine, v: Weights, w: Weights, t: real, s: real)
    requires v.Sum() == t && w.Sum() == s && (t <= 0.0 <==> s <= 0.0) && s != 0.0 && t != 0.0 && v.Over(t) == w.Over(s)
    ensures Normalise(engine, v) == Normalise(engine, w)
  {
  }

  /** Rescaling by a positive factor gives the same normalised weights when the weights do not cancel out. */
  lemma RescalingSame(engine: Engine, w: Weights, k: real)
    requires k > 0.0 && w.Sum() != 0.0
    ensures Normalise(engine, w.Times(k)) == Normalise(engine, w)
  {
    var t := w.Times(k).Sum();
    TimesSum(w, k);
    SameSign(w.Sum(), k);
    RescaledOver(w, w.Sum(), k, t);
    NormalisedAlike(engine, w.Times(k), w, t, w.Sum());
  }

  /** So the whole outcome of a call is the same. */
  lemma RescalingChangesNothing(engine: Engine, w: Weights, k: real, bids: seq<Bid>)
    requires w.Sum() != 0.0 && k > 0.0
    ensures Judge(engine, bids, Some(w.Times(k))) == Judge(engine, bids, Some(w))
  {
    RescalingSame(engine, w, k);
  }

  lemma Fixed(v: real, k: real)
    ensures v * k == v <==> v == 0.0 || k == 1.0
  {
    assert v * k - v == v * (k - 1.0);
  }

  lemma TimesFixed(w: Weights, k: real)
    ensures w.Times(k) == w <==> k == 1.0 || w == Weights(0.0, 0.0, 0.0, 0.0)
  {
    Fixed(w.price, k);
    Fixed(w.lead, k);
    Fixed(w.reliability, k);
    Fixed(w.quality, k);
  }

  lemma OverOne(w: Weights)
    ensures w.Over(1.0) == w
  {
  }

  /** In the simulation, weights that cancel out are used as they are: there the factor shows. */
  lemma RescalingExact(w: Weights, k: real)
    requires k > 0.0
    ensures Normalise(Simulation, w.Times(k)) == Normalise(Simulation, w)
       <==> w.Sum() != 0.0 || k == 1.0 || w == Weights(0.0, 0.0, 0.0, 0.0)
  {
    if w.Sum() != 0.0 {
      RescalingSame(Simulation, w, k);
    } else {
      TimesSum(w, k);
      OverOne(w);
      OverOne(w.Times(k));
      TimesFixed(w, k);
    }
  }

  // ----- the winner and the first row -----

  /** The results are all the rows, by falling rounded score. */
  lemma ResultsRanked(w: Weights, bids: seq<Bid>)
    ensures Sorting.Sorted(Higher, Judged(w, bids).results)
    ensures multiset(Judged(w, bids).results) == multiset(Rows(w, bids))
  {
    assert Sorting.StrictWeak(Higher) by {
      assert forall a, b, c :: Sorting.Transfers(Higher, a, b, c);
    }
    Sorting.SortSorts(Higher, Rows(w, bids));
  }

  /** The winner is the first bid with the greatest exact score; there is none exactly when no score exceeds -1. */
  lemma WinnerIsFirstBest(w: Weights, bids: seq<Bid>)
    ensures var scores := Scores(w, bids);
            match Judged(w, bids).winner
            case Some(id) =>
              exists i: nat :: i < |bids| && FirstBest(scores, i) && scores[i] > -1.0 && bids[i].Id() == id
            case None =>
              forall i :: 0 <= i < |bids| ==> scores[i] <= -1.0
  {
  }

  /** With sound weights and ratings there is always a winner, and no score leaves [0, 1]. */
  lemma SoundBidsHaveAWinner(engine: Engine, bids: seq<Bid>, weights: Weights)
    requires weights.NonNegative() && weights.Sum() > 0.0 && bids != [] && forall b :: b in bids ==> Rated(b)
    ensures var w := weights.Over(weights.Sum());
            Judge(engine, bids, Some(weights)) == Ok(Judged(w, bids)) && Judged(w, bids).winner.Some?
            && forall b :: b in bids ==> 0.0 <= Score(w, bids, b) <= 1.0
  {
    var w := weights.Over(weights.Sum());
    NormalisedWeights(engine, weights);
    forall b | b in bids ensures 0.0 <= Score(w, bids, b) <= 1.0 {
      ScoreRange(w, bids, b);
    }
    assert bids[0] in bids && Scores(w, bids)[0] >= 0.0;
  }

  /** The rounded score in place i of the unsorted rows. */
  function Rounded(w: Weights, bids: seq<Bid>, i: nat): int
    requires i < |bids|
  {
    RoundHalfEven(Score(w, bids, bids[i]) * 1000000.0)
  }

  lemma RowScore(w: Weights, bids: seq<Bid>, i: nat)
    requires i < |bids|
    ensures Rows(w, bids)[i].score == Some(Rounded(w, bids, i))
  {
  }

  lemma RoundedKeepsOrder(w: Weights, bids: seq<Bid>, i: nat, j: nat)
    requires i < |bids| && j < |bids| && Scores(w, bids)[i] <= Scores(w, bids)[j]
    ensures Rounded(w, bids, i) <= Rounded(w, bids, j)
  {
    ScaleRight(Scores(w, bids)[i], Scores(w, bids)[j], 1000000.0);
    RoundMonotone(Scores(w, bids)[i] * 1000000.0, Scores(w, bids)[j] * 1000000.0);
  }

  lemma LeaderRoundsHighest(w: Weights, bids: seq<Bid>, i: nat)
    requires i < |bids| && FirstBest(Scores(w, bids), i)
    ensures forall j :: 0 <= j < |bids| ==> Rounded(w, bids, j) <= Rounded(w, bids, i)
  {
    forall j | 0 <= j < |bids| ensures Rounded(w, bids, j) <= Rounded(w, bids, i) {
      RoundedKeepsOrder(w, bids, j, i);
    }
  }

  /** f is the first bid whose score rounds to what bid i's score rounds to. */
  ghost predicate FirstTie(w: Weights, bids: seq<Bid>, i: nat, f: nat)
    requires i < |bids|
  {
    f <= i && Rounded(w, bids, f) == Rounded(w, bids, i)
    && forall j :: 0 <= j < f ==> Rounded(w, bids, j) != Rounded(w, bids, i)
  }

  lemma FirstTieIsLeast(w: Weights, bids: seq<Bid>, i: nat, f: nat)
    requires i < |bids| && FirstBest(Scores(w, bids), i) && FirstTie(w, bids, i, f)
    ensures Sorting.FirstLeast(Higher, Rows(w, bids), f)
  {
    LeaderRoundsHighest(w, bids, i);
    forall j | 0 <= j < |bids| ensures Rows(w, bids)[j].score == Some(Rounded(w, bids, j)) {
      RowScore(w, bids, j);
    }
  }

  /** The first row of the sorted results is that of the first bid that rounds to the winner's rounded score. */
  lemma TopRow(w: Weights, bids: seq<Bid>, i: nat, f: nat)
    requires i < |bids| && FirstBest(Scores(w, bids), i) && FirstTie(w, bids, i, f)
    ensures Judged(w, bids).results[0] == RowOf(w, bids, bids[f])
    ensures Judged(w, bids).results[0].score == RowOf(w, bids, bids[i]).score
  {
    FirstTieIsLeast(w, bids, i, f);
    RowScore(w, bids, f);
    RowScore(w, bids, i);
    Sorting.SortHead(Higher, Rows(w, bids), f);
  }

  function FindTie(w: Weights, bids: seq<Bid>, i: nat, f: nat): (r: nat)
    requires f <= i < |bids| && forall j :: 0 <= j < f ==> Rounded(w, bids, j) != Rounded(w, bids, i)
    ensures FirstTie(w, bids, i, r)
    decreases i - f
  {
    if Rounded(w, bids, f) == Rounded(w, bids, i) then f else FindTie(w, bids, i, f + 1)
  }

  lemma OtherRow(w: Weights, bids: seq<Bid>, i: nat, j: nat)
    requires i < |bids| && j < |bids| && bids[i].Id() != bids[j].Id()
    ensures RowOf(w, bids, bids[i]) != RowOf(w, bids, bids[j])
  {
    assert RowOf(w, bids, bids[i]).quoteId == bids[i].quote && RowOf(w, bids, bids[j]).quoteId == bids[j].quote;
  }

  /** The winner's own row comes first exactly when no earlier bid rounds to the same score. */
  lemma WinnerLeadsExactly(w: Weights, bids: seq<Bid>, i: nat)
    requires i < |bids| && FirstBest(Scores(w, bids), i)
    requires forall j :: 0 <= j < i ==> bids[j].Id() != bids[i].Id()
    ensures Judged(w, bids).results[0].score == Some(Rounded(w, bids, i))
    ensures Judged(w, bids).results[0] == RowOf(w, bids, bids[i])
       <==> forall j :: 0 <= j < i ==> Rounded(w, bids, j) < Rounded(w, bids, i)
  {
    var f := FindTie(w, bids, i, 0);
    TopRow(w, bids, i, f);
    RowScore(w, bids, i);
    LeaderRoundsHighest(w, bids, i);
    if f < i {
      OtherRow(w, bids, f, i);
    } else {
      forall j | 0 <= j < i ensures Rounded(w, bids, j) < Rounded(w, bids, i) {
        assert Rounded(w, bids, j) != Rounded(w, bids, i);
      }
    }
  }

  // ----- weights that cancel out -----

  lemma ProductScales(w: real, k: real, v: real)
    ensures (w * k) * v == k * (w * v)
  {
  }

  lemma SumScales(k: real, a: real, b: real, c: real, d: real)
    ensures k * a + k * b + k * c + k * d == k * (a + b + c + d)
  {
  }

  lemma WeightedScales(w: Weights, k: real, p: real, l: real, r: real, q: real)
    ensures Weighted(w.Times(k), p, l, r, q) == k * Weighted(w, p, l, r, q)
  {
    ProductScales(w.price, k, p);
    ProductScales(w.lead, k, l);
    ProductScales(w.reliability, k, r);
    ProductScales(w.quality, k, q);
    SumScales(k, w.price * p, w.lead * l, w.reliability * r, w.quality * q);
  }

  lemma ScoreScales(w: Weights, k: real, bids: seq<Bid>, b: Bid)
    requires bids != []
    ensures Score(w.Times(k), bids, b) == k * Score(w, bids, b)
  {
    WeightedScales(w, k, Inverted(b.total, Totals(bids)), Inverted(b.lead as real, Leads(bids)),
                   b.reliability.GetOr(0.0) / 5.0, b.quality.GetOr(0.0) / 5.0);
  }

  /** A factor that moves a score other than zero by two units of its last digit. */
  lemma TellingFactor(t: real) returns (k: real, x: real)
    requires t != 0.0
    ensures k > 0.0 && x == k * t && RoundHalfEven(x * 1000000.0) != RoundHalfEven(t * 1000000.0)
  {
    var u := if t > 0.0 then t else -t;
    var step := 0.000002 / u;
    assert step * u == 0.000002;
    k := 1.0 + step;
    x := k * t;
    assert x == t + step * t;
    assert step * t == 0.000002 || step * t == -0.000002;
  }

  lemma LoneBidScore(w: Weights, b: Bid)
    requires b.quality.GetOr(0.0) == 0.0
    ensures Score(w, [b], b) == w.price + w.lead + w.reliability * (b.reliability.GetOr(0.0) / 5.0)
  {
    assert Inverted(b.total, Totals([b])) == 1.0 && Inverted(b.lead as real, Leads([b])) == 1.0;
  }

  lemma UnratedBidScore(w: Weights, b: Bid)
    requires b.quality.GetOr(0.0) == 0.0 && b.reliability.GetOr(0.0) == 0.0
    ensures Score(w, [b], b) == w.price + w.lead
  {
    LoneBidScore(w, b);
  }

  lemma TwoBidScore(w: Weights)
    ensures var a, b := Bid(None, "a", 0.0, 1, None, None, None), Bid(None, "b", 1.0, 0, None, None, None);
            Score(w, [a, b], a) == w.price
  {
    var a, b := Bid(None, "a", 0.0, 1, None, None, None), Bid(None, "b", 1.0, 0, None, None, None);
    assert Totals([a, b]) == [0.0, 1.0] && Leads([a, b]) == [1.0, 0.0];
    assert MinOf([0.0, 1.0]) == 0.0 && MaxOf([0.0, 1.0]) == 1.0 && MinOf([1.0, 0.0]) == 0.0 && MaxOf([1.0, 0.0]) == 1.0;
    assert Inverted(0.0, Totals([a, b])) == 1.0 && Inverted(1.0, Leads([a, b])) == 0.0;
  }

  ghost predicate DistinctSuppliers(bids: seq<Bid>) {
    forall i, j :: 0 <= i < j < |bids| ==> bids[i].supplier != bids[j].supplier
  }

  /** Bids of which the first scores something other than zero. */
  lemma TellingBids(w: Weights) returns (bids: seq<Bid>)
    requires w.Sum() == 0.0 && !w.IsZero()
    ensures bids != [] && DistinctSuppliers(bids) && Score(w, bids, bids[0]) != 0.0
  {
    if w.price + w.lead != 0.0 {
      bids := [Bid(None, "a", 0.0, 0, None, None, None)];
      UnratedBidScore(w, bids[0]);
    } else if w.reliability != 0.0 {
      bids := [Bid(None, "a", 0.0, 0, None, Some(5.0), None)];
      LoneBidScore(w, bids[0]);
    } else {
      bids := [Bid(None, "a", 0.0, 1, None, None, None), Bid(None, "b", 1.0, 0, None, None, None)];
      TwoBidScore(w);
    }
  }

  lemma SameResultsSameScores(v: Weights, w: Weights, bids: seq<Bid>, i: nat)
    requires i < |bids| && DistinctSuppliers(bids) && Judged(v, bids).results == Judged(w, bids).results
    ensures Rounded(v, bids, i) == Rounded(w, bids, i)
  {
    ResultsRanked(v, bids);
    ResultsRanked(w, bids);
    Sorting.SameMembers(Rows(v, bids), Rows(w, bids));
    assert Rows(v, bids)[i] in Rows(w, bids);
    var j :| 0 <= j < |bids| && Rows(w, bids)[j] == Rows(v, bids)[i];
    SameRowSameScore(v, w, bids, i, j);
  }

  lemma SameRowSameScore(v: Weights, w: Weights, bids: seq<Bid>, i: nat, j: nat)
    requires i < |bids| && j < |bids| && DistinctSuppliers(bids) && Rows(w, bids)[j] == Rows(v, bids)[i]
    ensures Rounded(v, bids, i) == Rounded(w, bids, i)
  {
    RowSupplier(v, bids, i);
    RowSupplier(w, bids, j);
    RowScore(v, bids, i);
    RowScore(w, bids, j);
  }

  lemma RowSupplier(w: Weights, bids: seq<Bid>, i: nat)
    requires i < |bids|
    ensures Rows(w, bids)[i].supplierId == Some(bids[i].supplier)
  {
  }

  lemma CancelledAsGiven(w: Weights, bids: seq<Bid>)
    requires w.Sum() == 0.0
    ensures Judge(Simulation, bids, Some(w)) == Ok(Judged(w, bids))
  {
    OverOne(w);
  }

  lemma CancelledStays(w: Weights, k: real)
    requires w.Sum() == 0.0
    ensures w.Times(k).Sum() == 0.0
  {
    TimesSum(w, k);
  }

  /** The scale k of the weights does not show in the outcome for these bids. */
  ghost predicate SameOutcome(w: Weights, k: real, bids: seq<Bid>) {
    Judge(Simulation, bids, Some(w.Times(k))) == Judge(Simulation, bids, Some(w))
  }

  ghost predicate ScaleFree(w: Weights) {
    forall k, bids :: k > 0.0 ==> SameOutcome(w, k, bids)
  }

  lemma OtherOutcome(w: Weights, k: real, bids: seq<Bid>)
    requires w.Sum() == 0.0 && bids != [] && DistinctSuppliers(bids)
    requires Rounded(w.Times(k), bids, 0) != Rounded(w, bids, 0)
    ensures !SameOutcome(w, k, bids)
  {
    CancelledStays(w, k);
    CancelledAsGiven(w, bids);
    CancelledAsGiven(w.Times(k), bids);
    if Judged(w.Times(k), bids).results == Judged(w, bids).results {
      SameResultsSameScores(w.Times(k), w, bids, 0);
    }
  }

  lemma RoundedApart(v: Weights, w: Weights, bids: seq<Bid>, x: real, t: real)
    requires bids != [] && Score(v, bids, bids[0]) == x && Score(w, bids, bids[0]) == t
    requires RoundHalfEven(x * 1000000.0) != RoundHalfEven(t * 1000000.0)
    ensures Rounded(v, bids, 0) != Rounded(w, bids, 0)
  {
  }

  lemma ScoreTimes(w: Weights, k: real, bids: seq<Bid>, t: real, x: real)
    requires bids != [] && Score(w, bids, bids[0]) == t && x == k * t
    ensures Score(w.Times(k), bids, bids[0]) == x
  {
    ScoreScales(w, k, bids, bids[0]);
  }

  /** A scale and bids for which the first rounded score is another one. */
  lemma TellingScale(w: Weights) returns (k: real, bids: seq<Bid>)
    requires w.Sum() == 0.0 && !w.IsZero()
    ensures k > 0.0 && bids != [] && DistinctSuppliers(bids) && Rounded(w.Times(k), bids, 0) != Rounded(w, bids, 0)
  {
    bids := TellingBids(w);
    var t := Score(w, bids, bids[0]);
    var x;
    k, x := TellingFactor(t);
    ScoreTimes(w, k, bids, t, x);
    RoundedApart(w.Times(k), w, bids, x, t);
  }

  lemma ScaleShows(w: Weights)
    requires w.Sum() == 0.0 && !w.IsZero()
    ensures !ScaleFree(w)
  {
    var k, bids := TellingScale(w);
    OtherOutcome(w, k, bids);
  }

  lemma ZeroIsScaleFree(w: Weights)
    requires w.IsZero()
    ensures ScaleFree(w)
  {
    forall k, bids | k > 0.0 ensures SameOutcome(w, k, bids) {
      assert w.Times(k) == w;
    }
  }

  lemma UncancelledIsScaleFree(w: Weights)
    requires w.Sum() != 0.0
    ensures ScaleFree(w)
  {
    forall k, bids | k > 0.0 ensures SameOutcome(w, k, bids) {
      RescalingChangesNothing(Simulation, w, k, bids);
    }
  }

  /** The scale of the weights never shows in the simulation's outcomes
     exactly when they do not cancel out or are zero. */
  lemma ScaleFreeExactly(w: Weights)
    ensures ScaleFree(w) <==> w.Sum() != 0.0 || w.IsZero()
  {
    if w.Sum() != 0.0 {
      UncancelledIsScaleFree(w);
    } else if w.IsZero() {
      ZeroIsScaleFree(w);
    } else {
      ScaleShows(w);
    }
  }

  lemma LoneWinner(w: Weights, b: Bid)
    requires w.Sum() == 0.0 && b.quality.GetOr(0.0) == 0.0 && b.reliability.GetOr(0.0) == 0.0
    ensures var r := Judge(Simulation, [b], Some(w));
            r.Ok? && r.value.winner == if w.price + w.lead > -1.0 then Some(b.Id()) else None
  {
    CancelledAsGiven(w, [b]);
    UnratedBidScore(w, b);
    assert Scores(w, [b]) == [Score(w, [b], b)];
  }

  lemma DoubledWeights(w: Weights)
    ensures w.Times(2.0).price + w.Times(2.0).lead == 2.0 * (w.price + w.lead)
  {
  }

  /** Doubling weights such as -0.6 on price and 0.6 on reliability takes the win from the only, unrated bid. */
  lemma DoublingLosesTheWinner(w: Weights, b: Bid)
    requires w.Sum() == 0.0 && -1.0 < w.price + w.lead <= -0.5
    requires b.quality.GetOr(0.0) == 0.0 && b.reliability.GetOr(0.0) == 0.0
    ensures var once, twice := Judge(Simulation, [b], Some(w)), Judge(Simulation, [b], Some(w.Times(2.0)));
            once.Ok? && twice.Ok? && once.value.winner == Some(b.Id()) && twice.value.winner == None
  {
    CancelledStays(w, 2.0);
    DoubledWeights(w);
    LoneWinner(w, b);
    LoneWinner(w.Times(2.0), b);
  }
}
