/**
 * The sealed view of a comparison (rfq_serializers): callers who are not administrators see ranks and scores, and the
 * commercial terms of the winner alone.
 */
module Sealing {
  import opened Wrappers
  import opened Scoring
  import Sorting

  const UNSEALED_ROLES: set<string> := {"super_admin", "fleet_admin"}

  /** What a sealed caller sees of one bid; the label is "Bidder" followed by the rank. */
  datatype SealedRow = SealedRow(rank: nat, total: Option<int>, currency: Option<string>, lead: Option<int>,
                                 score: Option<int>)

  datatype View = Untouched(results: seq<Row>) | Redacted(rows: seq<SealedRow>)

  predicate IsUnsealed(roles: seq<string>): (unsealed: bool)
    ensures unsealed <==> "super_admin" in roles || "fleet_admin" in roles
  {
    exists r :: r in roles && r in UNSEALED_ROLES
  }

  /** An absent identifier and an empty one are the same to the source. */
  function OrElse(s: Option<string>, t: string): string {
    if s.Some? && s.value != "" then s.value else t
  }

  function RowId(r: Row): string {
    OrElse(r.quoteId, OrElse(r.supplierId, ""))
  }

  /** A missing score ranks as zero. */
  function Key(r: Row): int {
    r.score.GetOr(0)
  }

  /** max(results, key): the first of the rows with the greatest key. */
  function TopRow(rows: seq<Row>): (i: nat)
    requires rows != []
    ensures i < |rows|
    ensures forall j :: 0 <= j < |rows| ==> Key(rows[j]) <= Key(rows[i])
    ensures forall j :: 0 <= j < i ==> Key(rows[j]) < Key(rows[i])
  {
    var last := |rows| - 1;
    if last == 0 then 0
    else
      var i := TopRow(rows[..last]);
      if Key(rows[last]) > Key(rows[i]) then last else i
  }

  /** The explicit winner, or the top row's identifier; empty when there is nothing to point at. */
  function WinnerId(rows: seq<Row>, winner: Option<string>): string {
    OrElse(winner, if rows == [] then "" else RowId(rows[TopRow(rows)]))
  }

  /** sorted by (-score, id). */
  predicate Ahead(a: Row, b: Row) {
    Key(a) > Key(b) || (Key(a) == Key(b) && Sorting.Before(RowId(a), RowId(b)))
  }

  function SealRow(rank: nat, r: Row, winnerId: string): SealedRow {
    if winnerId != "" && RowId(r) == winnerId then SealedRow(rank, r.total, r.currency, r.lead, r.score)
    else SealedRow(rank, None, None, None, r.score)
  }

  /** An empty id says no more than an absent one. */
  function Cleaned(id: Option<string>): Option<string> {
    if id == Some("") then None else id
  }

  function SealRanked(ordered: seq<Row>, winnerId: string): (s: seq<SealedRow>)
    ensures |s| == |ordered|
  {
    seq(|ordered|, i requires 0 <= i < |ordered| => SealRow(i + 1, ordered[i], winnerId))
  }

  /** The redacted rows. */
  function Seal(rows: seq<Row>, winner: Option<string>): seq<SealedRow> {
    SealRanked(Sorting.Sort(Ahead, rows), WinnerId(rows, winner))
  }

  function SealResults(rows: seq<Row>, winner: Option<string>, roles: seq<string>): View {
    if IsUnsealed(roles) then Untouched(rows) else Redacted(Seal(rows, winner))
  }

  method BuildView(rows: seq<Row>, winner: Option<string>, roles: seq<string>) returns (view: View)
    ensures view == SealResults(rows, winner, roles)
    ensures view.Untouched? <==> "super_admin" in roles || "fleet_admin" in roles
    ensures view.Untouched? ==> view.results == rows
    ensures view.Redacted? ==> |view.rows| == |rows|
  {
    var unsealed := false;
    for k := 0 to |roles|
      invariant unsealed <==> exists j :: 0 <= j < k && roles[j] in UNSEALED_ROLES
    {
      if roles[k] in UNSEALED_ROLES { unsealed := true; }
    }
    assert IsUnsealed(roles) <==> exists j :: 0 <= j < |roles| && roles[j] in UNSEALED_ROLES;
    if unsealed { return Untouched(rows); }
    var winnerId := WinnerId(rows, winner);
    var ordered := Sorting.Sort(Ahead, rows);
    var out := [];
    for idx := 1 to |ordered| + 1
      invariant out == SealRanked(ordered, winnerId)[..idx - 1]
    {
      out := out + [SealRow(idx, ordered[idx - 1], winnerId)];
    }
    return Redacted(out);
  }

  lemma AheadIsWeak()
    ensures Sorting.StrictWeak(Ahead)
  {
    forall a, b ensures Ahead(a, b) ==> !Ahead(b, a) {
      Sorting.BeforeTotal(RowId(a), RowId(b));
    }
    forall a, b, c ensures Sorting.Transfers(Ahead, a, b, c) {
      AheadTransfers(a, b, c);
    }
  }

  lemma AheadTransfers(a: Row, b: Row, c: Row)
    ensures Sorting.Transfers(Ahead, a, b, c)
  {
    if !Ahead(b, a) && !Ahead(c, b) && Ahead(c, a) {
      Sorting.BeforeTotal(RowId(a), RowId(b));
      Sorting.BeforeTotal(RowId(b), RowId(c));
      if Key(a) == Key(b) == Key(c) && RowId(a) != RowId(b) && RowId(b) != RowId(c) {
        Sorting.BeforeTransitive(RowId(a), RowId(b), RowId(c));
        Sorting.BeforeTotal(RowId(a), RowId(c));
      }
    }
  }

  // ----- non-interference -----

  /** What the sealed view may depend on: place, identifier and score of every row, and the winner's terms. */
  ghost predicate Agree(a: seq<Row>, b: seq<Row>, winner: Option<string>) {
    && |a| == |b|
    && (forall i :: 0 <= i < |a| ==> RowId(a[i]) == RowId(b[i]) && a[i].score == b[i].score)
    && (forall i :: 0 <= i < |a| && RowId(a[i]) == WinnerId(a, winner) ==> SameTerms(a[i], b[i]))
  }

  predicate SameTerms(a: Row, b: Row) {
    a.total == b.total && a.currency == b.currency && a.lead == b.lead
  }

  /** A row reduced to what a sealed caller may learn from it. */
  datatype Seen = Seen(id: string, key: int, shown: SealedRow)

  function See(winnerId: string): Row -> Seen {
    (r: Row) => Seen(RowId(r), Key(r), SealRow(0, r, winnerId))
  }

  predicate SeenAhead(a: Seen, b: Seen) {
    a.key > b.key || (a.key == b.key && Sorting.Before(a.id, b.id))
  }

  lemma SameTop(a: seq<Row>, b: seq<Row>)
    requires |a| == |b| && a != [] && forall i :: 0 <= i < |a| ==> Key(a[i]) == Key(b[i])
    ensures TopRow(a) == TopRow(b)
  {
    var i, j := TopRow(a), TopRow(b);
    assert Key(a[i]) == Key(b[i]) && Key(a[j]) == Key(b[j]);
  }

  lemma SameWinnerId(a: seq<Row>, b: seq<Row>, winner: Option<string>)
    requires Agree(a, b, winner)
    ensures WinnerId(a, winner) == WinnerId(b, winner)
  {
    if a != [] { SameTop(a, b); }
  }

  lemma SeeReflects(winnerId: string)
    ensures Sorting.Reflects(See(winnerId), Ahead, SeenAhead)
  {
  }

  lemma SeenSorted(a: seq<Row>, winnerId: string)
    ensures Sorting.Map(See(winnerId), Sorting.Sort(Ahead, a)) == Sorting.Sort(SeenAhead, Sorting.Map(See(winnerId), a))
  {
    SeeReflects(winnerId);
    Sorting.SortMap(See(winnerId), Ahead, SeenAhead, a);
  }

  lemma SealedFromRanked(x: seq<Row>, y: seq<Row>, winnerId: string)
    requires Sorting.Map(See(winnerId), x) == Sorting.Map(See(winnerId), y)
    ensures SealRanked(x, winnerId) == SealRanked(y, winnerId)
  {
    var see := See(winnerId);
    assert |x| == |Sorting.Map(see, x)| == |y|;
    forall i | 0 <= i < |x| ensures SealRow(i + 1, x[i], winnerId) == SealRow(i + 1, y[i], winnerId) {
      assert Sorting.Map(see, x)[i] == see(x[i]) && Sorting.Map(see, y)[i] == see(y[i]);
      RankOnly(i + 1, x[i], y[i], winnerId);
    }
  }

  /** The redacted rows are a function of the reduced rows in order. */
  lemma SealedFromSeen(a: seq<Row>, b: seq<Row>, winnerId: string)
    requires Sorting.Map(See(winnerId), a) == Sorting.Map(See(winnerId), b)
    ensures SealRanked(Sorting.Sort(Ahead, a), winnerId) == SealRanked(Sorting.Sort(Ahead, b), winnerId)
  {
    SeenSorted(a, winnerId);
    SeenSorted(b, winnerId);
    SealedFromRanked(Sorting.Sort(Ahead, a), Sorting.Sort(Ahead, b), winnerId);
  }

  lemma RankOnly(rank: nat, a: Row, b: Row, winnerId: string)
    requires SealRow(0, a, winnerId) == SealRow(0, b, winnerId)
    ensures SealRow(rank, a, winnerId) == SealRow(rank, b, winnerId)
  {
  }

  /** Losers' terms, names and ratings never reach a sealed caller. */
  lemma NonInterference(a: seq<Row>, b: seq<Row>, winner: Option<string>, roles: seq<string>)
    requires "super_admin" !in roles && "fleet_admin" !in roles && Agree(a, b, winner)
    ensures SealResults(a, winner, roles) == SealResults(b, winner, roles)
  {
    SameWinnerId(a, b, winner);
    var id := WinnerId(a, winner);
    forall i | 0 <= i < |a| ensures See(id)(a[i]) == See(id)(b[i]) {
    }
    assert Sorting.Map(See(id), a) == Sorting.Map(See(id), b);
    SealedFromSeen(a, b, id);
  }

  function CleanRow(r: Row): Row {
    r.(quoteId := Cleaned(r.quoteId), supplierId := Cleaned(r.supplierId))
  }

  lemma CleanedRows(rows: seq<Row>, winner: Option<string>, roles: seq<string>)
    requires "super_admin" !in roles && "fleet_admin" !in roles
    ensures SealResults(Sorting.Map(CleanRow, rows), winner, roles) == SealResults(rows, winner, roles)
  {
    var cleaned := Sorting.Map(CleanRow, rows);
    forall i | 0 <= i < |rows| ensures RowId(rows[i]) == RowId(cleaned[i]) && SameTerms(rows[i], cleaned[i]) {
      assert cleaned[i] == CleanRow(rows[i]);
    }
    NonInterference(rows, cleaned, winner, roles);
  }

  /** Empty ids, of the winner and of the rows, are as good as absent ones. */
  lemma EmptyIsAbsent(rows: seq<Row>, winner: Option<string>, roles: seq<string>)
    requires "super_admin" !in roles && "fleet_admin" !in roles
    ensures SealResults(Sorting.Map(CleanRow, rows), Cleaned(winner), roles) == SealResults(rows, winner, roles)
  {
    CleanedRows(rows, winner, roles);
  }

  // ----- the order of the input -----

  predicate DistinctIds(rows: seq<Row>) {
    forall i, j :: 0 <= i < j < |rows| ==> RowId(rows[i]) != RowId(rows[j])
  }

  lemma DistinctUntied(rows: seq<Row>)
    requires DistinctIds(rows)
    ensures Sorting.Untied(Ahead, rows)
  {
    forall x, y | x in rows && y in rows && x != y ensures Ahead(x, y) || Ahead(y, x) {
      Sorting.BeforeTotal(RowId(x), RowId(y));
    }
  }

  lemma SameRanking(a: seq<Row>, b: seq<Row>)
    requires DistinctIds(a) && multiset(a) == multiset(b)
    ensures Sorting.Sort(Ahead, a) == Sorting.Sort(Ahead, b)
  {
    AheadIsWeak();
    Sorting.SortSorts(Ahead, a);
    Sorting.SortSorts(Ahead, b);
    DistinctUntied(a);
    Sorting.SameMembers(a, Sorting.Sort(Ahead, a));
    Sorting.SortedUnique(Ahead, Sorting.Sort(Ahead, a), Sorting.Sort(Ahead, b));
  }

  /** Row x has the greatest score of the list. */
  ghost predicate Tops(rows: seq<Row>, x: Row) {
    x in rows && forall y :: y in rows ==> Key(y) <= Key(x)
  }

  /** Being named as the winner would disclose nothing of x. */
  predicate Blank(x: Row) {
    RowId(x) == "" || (x.total.None? && x.currency.None? && x.lead.None?)
  }

  /** The winner is named, or it does not matter which of the top rows is taken for it. */
  ghost predicate Settled(rows: seq<Row>, winner: Option<string>) {
    || OrElse(winner, "") != ""
    || forall x, y :: Tops(rows, x) && Tops(rows, y) && x != y ==> Blank(x)
  }

  /** The sealed rows are the same for every order of the input. */
  ghost predicate OrderFree(rows: seq<Row>, winner: Option<string>) {
    forall b :: multiset(b) == multiset(rows) ==> Seal(b, winner) == Seal(rows, winner)
  }

  lemma TopRowTops(rows: seq<Row>)
    requires rows != []
    ensures Tops(rows, rows[TopRow(rows)])
  {
  }

  lemma BlankWinner(ordered: seq<Row>, x: Row, y: Row)
    requires x in ordered && y in ordered && DistinctIds(ordered) && Blank(x) && Blank(y)
    ensures SealRanked(ordered, RowId(x)) == SealRanked(ordered, RowId(y))
  {
    forall i | 0 <= i < |ordered|
      ensures SealRow(i + 1, ordered[i], RowId(x)) == SealRow(i + 1, ordered[i], RowId(y)) {
      SameId(ordered, i, x);
      SameId(ordered, i, y);
    }
  }

  lemma SameId(rows: seq<Row>, i: nat, x: Row)
    requires DistinctIds(rows) && i < |rows| && x in rows
    ensures RowId(rows[i]) == RowId(x) ==> rows[i] == x
  {
    var j :| 0 <= j < |rows| && rows[j] == x;
    assert i < j ==> RowId(rows[i]) != RowId(rows[j]);
    assert j < i ==> RowId(rows[j]) != RowId(rows[i]);
  }

  lemma DistinctPermuted(a: seq<Row>, b: seq<Row>)
    requires DistinctIds(a) && multiset(a) == multiset(b)
    ensures DistinctIds(b)
  {
    forall i, j | 0 <= i < j < |b| ensures RowId(b[i]) != RowId(b[j]) {
      if RowId(b[i]) == RowId(b[j]) {
        Sorting.SameMembers(a, b);
        assert b[i] in a && b[j] in a;
        var k :| 0 <= k < |a| && a[k] == b[i];
        SameId(a, k, b[j]);
        TwiceIn(b, i, j);
        OnceIn(a, k);
      }
    }
  }

  lemma TwiceIn<T>(s: seq<T>, i: nat, j: nat)
    requires i < j < |s| && s[i] == s[j]
    ensures multiset(s)[s[i]] >= 2
  {
    assert s == s[..i] + [s[i]] + s[i + 1..j] + [s[j]] + s[j + 1..];
  }

  lemma OnceIn(rows: seq<Row>, k: nat)
    requires DistinctIds(rows) && k < |rows|
    ensures multiset(rows)[rows[k]] == 1
  {
    assert rows == rows[..k] + [rows[k]] + rows[k + 1..];
    assert rows[k] !in rows[..k] && rows[k] !in rows[k + 1..];
  }

  lemma SettledOrder(rows: seq<Row>, winner: Option<string>, b: seq<Row>)
    requires DistinctIds(rows) && Settled(rows, winner) && multiset(b) == multiset(rows)
    ensures Seal(b, winner) == Seal(rows, winner)
  {
    SameRanking(rows, b);
    Sorting.SameMembers(b, rows);
    if OrElse(winner, "") == "" && rows != [] {
      TopRowTops(rows);
      TopRowTops(b);
      var x, y := rows[TopRow(rows)], b[TopRow(b)];
      assert Tops(rows, y);
      if x != y {
        var ordered := Sorting.Sort(Ahead, rows);
        Sorting.SortPermutes(Ahead, rows);
        Sorting.SameMembers(ordered, rows);
        DistinctPermuted(rows, ordered);
        BlankWinner(ordered, x, y);
      }
    }
  }

  /** Brings x to the front of the list. */
  lemma Foremost(rows: seq<Row>, x: Row) returns (b: seq<Row>)
    requires Tops(rows, x)
    ensures multiset(b) == multiset(rows) && b != [] && b[0] == x && TopRow(b) == 0
  {
    var i :| 0 <= i < |rows| && rows[i] == x;
    b := [x] + rows[..i] + rows[i + 1..];
    assert rows == rows[..i] + [x] + rows[i + 1..];
    assert forall y :: y in b ==> y in rows;
    assert Key(b[TopRow(b)]) <= Key(b[0]);
  }

  /** A permutation with x in front is sealed with x as the winner. */
  lemma ForemostSealed(rows: seq<Row>, winner: Option<string>, x: Row)
    requires DistinctIds(rows) && OrElse(winner, "") == "" && Tops(rows, x)
    ensures exists b :: multiset(b) == multiset(rows)
              && Seal(b, winner) == SealRanked(Sorting.Sort(Ahead, rows), RowId(x))
  {
    var b := Foremost(rows, x);
    SameRanking(rows, b);
    assert Seal(b, winner) == SealRanked(Sorting.Sort(Ahead, rows), RowId(x));
  }

  lemma UnlikeWinners(ordered: seq<Row>, x: Row, y: Row)
    requires x in ordered && DistinctIds(ordered) && y in ordered && x != y && !Blank(x)
    ensures SealRanked(ordered, RowId(x)) != SealRanked(ordered, RowId(y))
  {
    var k :| 0 <= k < |ordered| && ordered[k] == x;
    SameId(ordered, k, y);
    assert SealRanked(ordered, RowId(x))[k] == SealRow(k + 1, x, RowId(x));
    assert SealRanked(ordered, RowId(y))[k] == SealRow(k + 1, x, RowId(y));
  }

  lemma UnsettledShows(rows: seq<Row>, winner: Option<string>, x: Row, y: Row)
    requires DistinctIds(rows) && OrElse(winner, "") == ""
    requires Tops(rows, x) && Tops(rows, y) && x != y && !Blank(x)
    ensures !OrderFree(rows, winner)
  {
    ForemostSealed(rows, winner, x);
    ForemostSealed(rows, winner, y);
    var ordered := Sorting.Sort(Ahead, rows);
    Sorting.SortPermutes(Ahead, rows);
    Sorting.SameMembers(ordered, rows);
    DistinctPermuted(rows, ordered);
    UnlikeWinners(ordered, x, y);
  }

  /** With distinct ids, the order of the input cannot be seen exactly when the winner is settled beforehand. */
  lemma OrderFreeExactly(rows: seq<Row>, winner: Option<string>)
    requires DistinctIds(rows)
    ensures OrderFree(rows, winner) <==> Settled(rows, winner)
  {
    if Settled(rows, winner) {
      forall b | multiset(b) == multiset(rows) ensures Seal(b, winner) == Seal(rows, winner) {
        SettledOrder(rows, winner, b);
      }
    } else {
      var x, y :| Tops(rows, x) && Tops(rows, y) && x != y && !Blank(x);
      UnsettledShows(rows, winner, x, y);
    }
  }

  /** An instance: two bids with the top score and no named winner; swapping them moves the disclosed price. */
  lemma TiedFallbackDependsOnOrder()
    ensures var a := Row(None, Some("a"), Some(900000), Some(10), None, None, None, None);
            var b := Row(None, Some("b"), Some(900000), Some(20), None, None, None, None);
            Seal([a, b], None) != Seal([b, a], None)
  {
    var a := Row(None, Some("a"), Some(900000), Some(10), None, None, None, None);
    var b := Row(None, Some("b"), Some(900000), Some(20), None, None, None, None);
    assert Sorting.Sort(Ahead, [a]) == [a] && Sorting.Sort(Ahead, [b]) == [b] by {
      assert [a][..0] == [] && [b][..0] == [];
    }
    assert [a, b][..1] == [a] && [b, a][..1] == [b];
    assert TopRow([a, b]) == 0 && TopRow([b, a]) == 0;
    assert Seal([a, b], None)[0].total == Some(10) && Seal([b, a], None)[0].total == None;
  }

  // ----- ranks -----

  /** Ranks count from 1 and scores never rise, whatever the input. */
  lemma RanksAndScores(rows: seq<Row>, winner: Option<string>)
    ensures var s := Seal(rows, winner);
            |s| == |rows|
            && (forall k :: 0 <= k < |s| ==> s[k].rank == k + 1)
            && (forall j, k :: 0 <= j < k < |s| ==> s[j].score.GetOr(0) >= s[k].score.GetOr(0))
  {
    AheadIsWeak();
    Sorting.SortSorts(Ahead, rows);
    var ordered, s := Sorting.Sort(Ahead, rows), Seal(rows, winner);
    forall j, k | 0 <= j < k < |s| ensures s[j].score.GetOr(0) >= s[k].score.GetOr(0) {
      assert !Ahead(ordered[k], ordered[j]);
    }
  }

  // ----- the scorer's outcome, sealed -----

  /** Bids under distinct, non-empty ids. */
  ghost predicate DistinctBids(bids: seq<Bid>) {
    && (forall j :: 0 <= j < |bids| ==> bids[j].Id() != "")
    && (forall j, k :: 0 <= j < k < |bids| ==> bids[j].Id() != bids[k].Id())
  }

  /** A scored tender with bid i the scorer's winner. */
  ghost predicate Tender(w: Weights, bids: seq<Bid>, i: nat) {
    DistinctBids(bids) && Leader(Scores(w, bids)) == Some(i)
  }

  function SealedOutcome(w: Weights, bids: seq<Bid>): seq<SealedRow> {
    Seal(Judged(w, bids).results, Judged(w, bids).winner)
  }

  lemma RowsIdentify(w: Weights, bids: seq<Bid>)
    requires DistinctBids(bids)
    ensures DistinctIds(Rows(w, bids))
    ensures forall j :: 0 <= j < |bids| ==> RowId(Rows(w, bids)[j]) == bids[j].Id()
  {
    forall j | 0 <= j < |bids| ensures RowId(Rows(w, bids)[j]) == bids[j].Id() {
      assert Rows(w, bids)[j].quoteId == bids[j].quote && Rows(w, bids)[j].supplierId == Some(bids[j].supplier);
    }
  }

  /** The results in sealed order are a permutation of the unsorted rows, with distinct ids. */
  lemma OrderedRows(w: Weights, bids: seq<Bid>) returns (ordered: seq<Row>)
    requires DistinctBids(bids)
    ensures ordered == Sorting.Sort(Ahead, Judged(w, bids).results)
    ensures multiset(ordered) == multiset(Rows(w, bids)) && DistinctIds(ordered) && Sorting.Sorted(Ahead, ordered)
    ensures forall x :: x in ordered <==> x in Rows(w, bids)
  {
    ResultsRanked(w, bids);
    ordered := Sorting.Sort(Ahead, Judged(w, bids).results);
    AheadIsWeak();
    Sorting.SortSorts(Ahead, Judged(w, bids).results);
    RowsIdentify(w, bids);
    DistinctPermuted(Rows(w, bids), ordered);
    Sorting.SameMembers(ordered, Rows(w, bids));
  }

  /** The place of a row in the sealed view. */
  lemma PlaceOf(w: Weights, bids: seq<Bid>, x: Row) returns (ordered: seq<Row>, k: nat)
    requires DistinctBids(bids) && x in Rows(w, bids)
    ensures ordered == Sorting.Sort(Ahead, Judged(w, bids).results) && k < |ordered|
    ensures ordered[k] == x && Sorting.Sorted(Ahead, ordered)
    ensures forall j :: 0 <= j < |ordered| ==> (RowId(ordered[j]) == RowId(x) <==> j == k)
    ensures forall y :: y in ordered <==> y in Rows(w, bids)
  {
    ordered := OrderedRows(w, bids);
    k :| 0 <= k < |ordered| && ordered[k] == x;
    forall j | 0 <= j < |ordered| ensures RowId(ordered[j]) == RowId(x) <==> j == k {
      assert j < k ==> RowId(ordered[j]) != RowId(ordered[k]);
      assert k < j ==> RowId(ordered[k]) != RowId(ordered[j]);
    }
  }

  /** The place of the winner's row in the sealed view. */
  lemma WinnersPlace(w: Weights, bids: seq<Bid>, i: nat) returns (ordered: seq<Row>, k: nat)
    requires Tender(w, bids, i)
    ensures ordered == Sorting.Sort(Ahead, Judged(w, bids).results) && k < |ordered|
    ensures ordered[k] == Rows(w, bids)[i] && Sorting.Sorted(Ahead, ordered)
    ensures forall j :: 0 <= j < |ordered| ==> (RowId(ordered[j]) == bids[i].Id() <==> j == k)
    ensures forall x :: x in ordered <==> x in Rows(w, bids)
  {
    RowsIdentify(w, bids);
    ordered, k := PlaceOf(w, bids, Rows(w, bids)[i]);
  }

  ghost predicate DisclosesOnly(s: seq<SealedRow>, k: nat, r: Row)
    requires k < |s|
  {
    && (forall j :: 0 <= j < |s| ==> (s[j].total.Some? <==> j == k))
    && (forall j :: 0 <= j < |s| && j != k ==> s[j].currency.None? && s[j].lead.None?)
    && s[k] == SealedRow(k + 1, r.total, r.currency, r.lead, r.score)
  }

  lemma WinnerDiscloses(ordered: seq<Row>, k: nat, winnerId: string)
    requires k < |ordered| && winnerId != "" && ordered[k].total.Some?
    requires forall j :: 0 <= j < |ordered| ==> (RowId(ordered[j]) == winnerId <==> j == k)
    ensures DisclosesOnly(SealRanked(ordered, winnerId), k, ordered[k])
  {
  }

  /** The row whose terms a sealed caller is shown: the winner's, or the first result when nobody wins. */
  function Disclosed(w: Weights, bids: seq<Bid>): Row
    requires bids != []
  {
    var leader := Leader(Scores(w, bids));
    if leader.Some? then RowOf(w, bids, bids[leader.value]) else Judged(w, bids).results[0]
  }

  lemma SortedTop(rows: seq<Row>)
    requires rows != [] && Sorting.Sorted(Higher, rows)
    ensures TopRow(rows) == 0
  {
    forall j | 0 < j < |rows| ensures Key(rows[j]) <= Key(rows[0]) {
      assert !Higher(rows[j], rows[0]);
    }
  }

  lemma DisclosedIsNamed(w: Weights, bids: seq<Bid>)
    requires DistinctBids(bids) && bids != []
    ensures var x := Disclosed(w, bids);
            x in Rows(w, bids) && RowId(x) != "" && x.total.Some?
            && WinnerId(Judged(w, bids).results, Judged(w, bids).winner) == RowId(x)
  {
    RowsIdentify(w, bids);
    var leader := Leader(Scores(w, bids));
    if leader.Some? {
      assert Rows(w, bids)[leader.value] == Disclosed(w, bids);
    } else {
      ResultsRanked(w, bids);
      SortedTop(Judged(w, bids).results);
      Sorting.SameMembers(Judged(w, bids).results, Rows(w, bids));
      assert Judged(w, bids).results[0] in Rows(w, bids);
    }
  }

  /**
   Exactly one sealed row discloses a total; it is the scorer's winner's, with its lead time and currency, or that of
   the first result when there is no winner.
   */
  lemma OneRowDiscloses(w: Weights, bids: seq<Bid>)
    requires DistinctBids(bids) && bids != []
    ensures var s := SealedOutcome(w, bids);
            exists k :: 0 <= k < |s| && DisclosesOnly(s, k, Disclosed(w, bids))
  {
    DisclosedIsNamed(w, bids);
    RowDiscloses(w, bids, Disclosed(w, bids));
  }

  lemma RowDiscloses(w: Weights, bids: seq<Bid>, x: Row)
    requires DistinctBids(bids) && x in Rows(w, bids) && RowId(x) != "" && x.total.Some?
    requires WinnerId(Judged(w, bids).results, Judged(w, bids).winner) == RowId(x)
    ensures var s := SealedOutcome(w, bids); exists k :: 0 <= k < |s| && DisclosesOnly(s, k, x)
  {
    var ordered, k := PlaceOf(w, bids, x);
    WinnerDiscloses(ordered, k, RowId(x));
    assert SealedOutcome(w, bids) == SealRanked(ordered, RowId(x));
  }

  lemma SealedWithWinner(w: Weights, bids: seq<Bid>, i: nat)
    requires Tender(w, bids, i)
    ensures SealedOutcome(w, bids) == SealRanked(Sorting.Sort(Ahead, Judged(w, bids).results), bids[i].Id())
  {
  }

  /** No other bid rounds to the winner's score under a smaller id. */
  ghost predicate LeadsTies(w: Weights, bids: seq<Bid>, i: nat)
    requires i < |bids|
  {
    forall j :: 0 <= j < |bids| && j != i && Rounded(w, bids, j) == Rounded(w, bids, i)
      ==> Sorting.Before(bids[i].Id(), bids[j].Id())
  }

  lemma AheadByKeys(a: Row, b: Row, m: int, n: int)
    requires a.score == Some(m) && b.score == Some(n) && n <= m
    ensures Ahead(a, b) <==> (n == m ==> Sorting.Before(RowId(a), RowId(b)))
  {
  }

  lemma AheadOf(w: Weights, bids: seq<Bid>, i: nat, j: nat)
    requires Tender(w, bids, i) && j < |bids|
    requires Rounded(w, bids, j) <= Rounded(w, bids, i)
    ensures Ahead(Rows(w, bids)[i], Rows(w, bids)[j])
       <==> (Rounded(w, bids, j) == Rounded(w, bids, i) ==> Sorting.Before(bids[i].Id(), bids[j].Id()))
  {
    RowsIdentify(w, bids);
    RowScore(w, bids, i);
    RowScore(w, bids, j);
    AheadByKeys(Rows(w, bids)[i], Rows(w, bids)[j], Rounded(w, bids, i), Rounded(w, bids, j));
  }

  /** The winner's row leads the others exactly when it leads its ties. */
  lemma WinnerAhead(w: Weights, bids: seq<Bid>, i: nat)
    requires Tender(w, bids, i)
    ensures LeadsTies(w, bids, i)
       <==> forall j :: 0 <= j < |bids| && j != i ==> Ahead(Rows(w, bids)[i], Rows(w, bids)[j])
  {
    LeaderRoundsHighest(w, bids, i);
    forall j | 0 <= j < |bids|
      ensures Ahead(Rows(w, bids)[i], Rows(w, bids)[j])
         <==> (Rounded(w, bids, j) == Rounded(w, bids, i) ==> Sorting.Before(bids[i].Id(), bids[j].Id())) {
      AheadOf(w, bids, i, j);
    }
  }

  lemma FirstIsAhead(ordered: seq<Row>, k: nat)
    requires k < |ordered| && Sorting.Sorted(Ahead, ordered)
    requires forall j :: 0 <= j < |ordered| ==> (RowId(ordered[j]) == RowId(ordered[k]) <==> j == k)
    ensures k == 0 <==> forall x :: x in ordered && x != ordered[k] ==> Ahead(ordered[k], x)
  {
    if k == 0 {
      forall x | x in ordered && x != ordered[0] ensures Ahead(ordered[0], x) {
        var j :| 0 <= j < |ordered| && ordered[j] == x;
        assert !Ahead(ordered[j], ordered[0]);
        Sorting.BeforeTotal(RowId(x), RowId(ordered[0]));
      }
    } else {
      assert ordered[0] in ordered && !Ahead(ordered[k], ordered[0]);
    }
  }

  /** The disclosed row has rank 1 exactly when the winner leads its ties. */
  lemma WinnerRankExactly(w: Weights, bids: seq<Bid>, i: nat)
    requires Tender(w, bids, i)
    ensures SealedOutcome(w, bids) != []
    ensures SealedOutcome(w, bids)[0].total.Some? <==> LeadsTies(w, bids, i)
  {
    var ordered, k := WinnersPlace(w, bids, i);
    RowsIdentify(w, bids);
    WinnerAhead(w, bids, i);
    FirstIsAhead(ordered, k);
    var rows := Rows(w, bids);
    assert forall j :: 0 <= j < |rows| && j != i ==> rows[j] in ordered && rows[j] != rows[i];
    SealedWithWinner(w, bids, i);
    assert SealedOutcome(w, bids)[0] == SealRow(1, ordered[0], bids[i].Id());
  }

  // ----- the reported rank -----

  /** The response for a sealed caller carries a rank in place of the winner's id. */
  datatype Response = Open(outcome: Outcome) | Sealed(rows: seq<SealedRow>, winnerRank: Option<nat>)

  function SealComparison(payload: Outcome, roles: seq<string>): (r: Response)
    ensures r.Open? <==> "super_admin" in roles || "fleet_admin" in roles
    ensures r.Open? ==> r.outcome == payload
    ensures r.Sealed? ==> |r.rows| == |payload.results| && (r.winnerRank.Some? ==> payload.winner.Some?)
  {
    if IsUnsealed(roles) then Open(payload)
    else
      var rows := Seal(payload.results, payload.winner);
      Sealed(rows, if payload.winner.Some? && rows != [] then Some(1) else None)
  }

  /** The reported winner rank names the disclosed row exactly when the winner leads its ties. */
  lemma ReportedRankExactly(w: Weights, bids: seq<Bid>, i: nat, roles: seq<string>)
    requires Tender(w, bids, i) && "super_admin" !in roles && "fleet_admin" !in roles
    ensures var r := SealComparison(Judged(w, bids), roles);
            r.Sealed? && r.winnerRank == Some(1)
            && ((exists k :: 0 <= k < |r.rows| && r.rows[k].total.Some? && Some(r.rows[k].rank) == r.winnerRank)
                <==> LeadsTies(w, bids, i))
  {
    WinnerRankExactly(w, bids, i);
    RanksAndScores(Judged(w, bids).results, Judged(w, bids).winner);
    assert SealedOutcome(w, bids)[0].rank == 1;
  }

  /** When no other bid rounds to the winner's score, the report is right. */
  lemma UniqueTopIsRankOne(w: Weights, bids: seq<Bid>, i: nat)
    requires Tender(w, bids, i)
    requires forall j :: 0 <= j < |bids| && j != i ==> Rounded(w, bids, j) < Rounded(w, bids, i)
    ensures SealedOutcome(w, bids)[0].total == RowOf(w, bids, bids[i]).total
  {
    assert LeadsTies(w, bids, i);
    WinnerRankExactly(w, bids, i);
    OneRowDiscloses(w, bids);
  }

  /** Terms are disclosed to a sealed caller. */
  ghost predicate ShowsTerms(r: Response) {
    r.Sealed? && exists k :: 0 <= k < |r.rows| && r.rows[k].total.Some?
  }

  lemma ShownUnlessEmpty(w: Weights, bids: seq<Bid>, roles: seq<string>)
    requires DistinctBids(bids) && "super_admin" !in roles && "fleet_admin" !in roles
    ensures ShowsTerms(SealComparison(Judged(w, bids), roles)) <==> bids != []
  {
    RanksAndScores(Judged(w, bids).results, Judged(w, bids).winner);
    if bids != [] {
      OneRowDiscloses(w, bids);
      var s := SealedOutcome(w, bids);
      var k :| 0 <= k < |s| && DisclosesOnly(s, k, Disclosed(w, bids));
      assert s[k].total.Some?;
    }
  }

  /** Some bid's terms are disclosed although no winner is reported, exactly when there are bids and none exceeds -1. */
  lemma LoserShownExactly(w: Weights, bids: seq<Bid>, roles: seq<string>)
    requires DistinctBids(bids) && "super_admin" !in roles && "fleet_admin" !in roles
    ensures var r := SealComparison(Judged(w, bids), roles);
            ShowsTerms(r) && r.winnerRank == None
            <==> bids != [] && forall i :: 0 <= i < |bids| ==> Scores(w, bids)[i] <= -1.0
  {
    ShownUnlessEmpty(w, bids, roles);
    RanksAndScores(Judged(w, bids).results, Judged(w, bids).winner);
  }

  /** Reachable with weights such as -1 on price and 1 on reliability, and one unrated bid. */
  lemma LoserShown(w: Weights, b: Bid, roles: seq<string>)
    requires w.Sum() == 0.0 && w.price + w.lead <= -1.0 && b.Id() != ""
    requires "super_admin" !in roles && "fleet_admin" !in roles
    requires b.quality.GetOr(0.0) == 0.0 && b.reliability.GetOr(0.0) == 0.0
    ensures var judged := Judge(Simulation, [b], Some(w));
            judged.Ok? && var r := SealComparison(judged.value, roles); ShowsTerms(r) && r.winnerRank == None
  {
    CancelledAsGiven(w, [b]);
    UnratedBidScore(w, b);
    assert Scores(w, [b]) == [Score(w, [b], b)];
    LoserShownExactly(w, [b], roles);
  }

  lemma TieGoesAhead(w: Weights, bids: seq<Bid>, i: nat, j: nat)
    requires Tender(w, bids, i) && j < |bids| && j != i
    requires Rounded(w, bids, j) == Rounded(w, bids, i) && Sorting.Before(bids[j].Id(), bids[i].Id())
    ensures !LeadsTies(w, bids, i) && SealComparison(Judged(w, bids), []).winnerRank == Some(1)
    ensures SealedOutcome(w, bids) != [] && SealedOutcome(w, bids)[0].total == None
  {
    Sorting.BeforeTotal(bids[j].Id(), bids[i].Id());
    WinnerRankExactly(w, bids, i);
  }

  lemma EqualBids() returns (w: Weights, bids: seq<Bid>)
    ensures w == Simulation.DefaultWeights()
    ensures bids == [Bid(None, "b", 10.0, 3, None, None, None), Bid(None, "a", 10.0, 3, None, None, None)]
    ensures Tender(w, bids, 0) && Rounded(w, bids, 0) == Rounded(w, bids, 1)
  {
    w := Simulation.DefaultWeights();
    bids := [Bid(None, "b", 10.0, 3, None, None, None), Bid(None, "a", 10.0, 3, None, None, None)];
    assert Inverted(10.0, Totals(bids)) == 1.0 && Inverted(3.0, Leads(bids)) == 1.0;
    assert Score(w, bids, bids[0]) == 0.6 && Score(w, bids, bids[1]) == 0.6;
    assert Scores(w, bids) == [0.6, 0.6];
    assert Leader([0.6, 0.6]) == Some(0);
    assert Rounded(w, bids, 0) == Rounded(w, bids, 1);
  }

  /** An instance: two equal bids, "b" before "a"; "b" wins, "a" is listed first, and rank 1 is reported. */
  lemma ReportedRankCanBeWrong()
    ensures var w := Simulation.DefaultWeights();
            var bids := [Bid(None, "b", 10.0, 3, None, None, None), Bid(None, "a", 10.0, 3, None, None, None)];
            Tender(w, bids, 0) && !LeadsTies(w, bids, 0)
            && SealComparison(Judged(w, bids), []).winnerRank == Some(1)
            && SealedOutcome(w, bids) != [] && SealedOutcome(w, bids)[0].total == None
  {
    var w, bids := EqualBids();
    TieGoesAhead(w, bids, 0, 1);
  }
}
