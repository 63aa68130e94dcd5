/**
 * The arithmetic of a provisioning plan (services/catering.py), over exact reals. The database rows the service reads
 * are a Galley; a crew breakdown is the list of its entries in iteration order. Quantities are in units of 10^-3,
 * line totals in 10^-4, costs, calories and grams per day in 10^-2.
 */
module Catering {
  import opened Wrappers
  import opened Rounding

  type Id = string

  datatype Meal = Breakfast | Lunch | Dinner | Snack | Midnight

  const MEALS: seq<Meal> := [Breakfast, Lunch, Dinner, Snack, Midnight]

  /** MEAL_DISTRIBUTION. */
  function Share(meal: Meal): real {
    match meal
    case Breakfast => 0.25
    case Lunch => 0.30
    case Dinner => 0.30
    case Snack => 0.10
    case Midnight => 0.05
  }

  datatype Product = Product(inKilograms: bool, unitPrice: real)
  datatype MenuItem = MenuItem(product: Id, servingGrams: real)
  datatype Menu = Menu(targetKcal: int, items: seq<MenuItem>)

  /** Calorie targets per nationality, default menus, and products. */
  datatype Galley = Galley(targets: map<string, int>, menus: map<(string, Meal), Menu>, products: map<Id, Product>)
  {
    /** Menu items refer to existing products by a foreign key. */
    predicate Valid() {
      forall key :: key in menus ==> forall i :: 0 <= i < |menus[key].items| ==> menus[key].items[i].product in products
    }
  }

  datatype Entry = Entry(code: string, heads: int)
  datatype Demand = Demand(code: string, meal: Meal, kcal: real)
  datatype Item = Item(product: Id, requiredQty: int, unitPrice: real, lineTotal: int, perDayGrams: int)
  datatype Plan = Plan(crewCount: int, totalKcal: int, estimatedCost: int, items: seq<Item>)
  datatype Error = BadDates | NoCrew | UnknownNationality(code: string)

  // ----- demand per meal -----

  predicate Known(g: Galley, crew: seq<Entry>) {
    forall i :: 0 <= i < |crew| ==> crew[i].code in g.targets
  }

  function EntryDemand(g: Galley, e: Entry, meal: Meal): Demand
    requires e.code in g.targets
  {
    Demand(e.code, meal, e.heads as real * g.targets[e.code] as real * Share(meal))
  }

  function EntryDemands(g: Galley, e: Entry): (r: seq<Demand>)
    requires e.code in g.targets
    ensures |r| == |MEALS|
  {
    seq(|MEALS|, k requires 0 <= k < |MEALS| => EntryDemand(g, e, MEALS[k]))
  }

  function Demands(g: Galley, crew: seq<Entry>): seq<Demand>
    requires Known(g, crew)
  {
    if crew == [] then []
    else Demands(g, crew[..|crew| - 1]) + EntryDemands(g, crew[|crew| - 1])
  }

  function SumKcal(demands: seq<Demand>): real {
    if demands == [] then 0.0 else SumKcal(demands[..|demands| - 1]) + demands[|demands| - 1].kcal
  }

  function DailyKcal(g: Galley, crew: seq<Entry>): int
    requires Known(g, crew)
  {
    if crew == [] then 0
    else
      var last := crew[|crew| - 1];
      DailyKcal(g, crew[..|crew| - 1]) + g.targets[last.code] * last.heads
  }

  // ----- grams per product -----

  function Grams(item: MenuItem, servings: real, days: int): real {
    item.servingGrams * servings * days as real
  }

  function ItemsNeed(items: seq<MenuItem>, servings: real, days: int, p: Id): real {
    if items == [] then 0.0
    else
      var last := items[|items| - 1];
      ItemsNeed(items[..|items| - 1], servings, days, p)
      + if last.product == p then Grams(last, servings, days) else 0.0
  }

  /** A missing menu is skipped; a target of zero or less counts as 1. */
  function Servings(menu: Menu, kcal: real): real {
    kcal / (if menu.targetKcal > 1 then menu.targetKcal as real else 1.0)
  }

  function DemandNeed(g: Galley, d: Demand, days: int, p: Id): real {
    if (d.code, d.meal) in g.menus then
      var menu := g.menus[(d.code, d.meal)];
      ItemsNeed(menu.items, Servings(menu, d.kcal), days, p)
    else 0.0
  }

  function Need(g: Galley, demands: seq<Demand>, days: int, p: Id): real {
    if demands == [] then 0.0
    else Need(g, demands[..|demands| - 1], days, p) + DemandNeed(g, demands[|demands| - 1], days, p)
  }

  function HeadCount(crew: seq<Entry>): int {
    if crew == [] then 0 else HeadCount(crew[..|crew| - 1]) + crew[|crew| - 1].heads
  }

  // ----- purchase lines -----

  function Quantity(product: Product, grams: real, bufferPct: real): real {
    (if product.inKilograms then grams / 1000.0 else grams) * (1.0 + bufferPct)
  }

  function LineCost(product: Product, grams: real, bufferPct: real): real {
    Quantity(product, grams, bufferPct) * product.unitPrice
  }

  function ItemOf(p: Id, product: Product, grams: real, bufferPct: real, days: int): Item
    requires days != 0
  {
    Item(p, RoundHalfEven(Quantity(product, grams, bufferPct) * 1000.0), product.unitPrice,
         RoundHalfEven(LineCost(product, grams, bufferPct) * 10000.0), RoundHalfEven(grams / days as real * 100.0))
  }

  // ----- the code -----

  method Aggregate(g: Galley, crew: seq<Entry>) returns (aggregated: seq<Demand>)
    requires Known(g, crew)
    ensures aggregated == Demands(g, crew)
  {
    aggregated := [];
    for i := 0 to |crew|
      invariant aggregated == Demands(g, crew[..i])
    {
      assert crew[..i + 1][..i] == crew[..i];
      ghost var before := aggregated;
      for k := 0 to |MEALS|
        invariant aggregated == before + EntryDemands(g, crew[i])[..k]
      {
        aggregated := aggregated + [EntryDemand(g, crew[i], MEALS[k])];
      }
    }
    assert crew[..|crew|] == crew;
  }

  function At(needs: map<Id, real>, p: Id): real {
    if p in needs then needs[p] else 0.0
  }

  /** The keys of a dictionary in insertion order. */
  ghost predicate InOrder(order: seq<Id>, needs: map<Id, real>) {
    (forall i, j :: 0 <= i < j < |order| ==> order[i] != order[j]) && forall p :: p in order <==> p in needs
  }

  /** product_needs[product] += grams. */
  method AddGrams(order0: seq<Id>, needs0: map<Id, real>, product: Id, grams: real)
    returns (order: seq<Id>, needs: map<Id, real>)
    requires InOrder(order0, needs0)
    ensures InOrder(order, needs) && needs == needs0[product := At(needs0, product) + grams]
  {
    order := if product in needs0 then order0 else order0 + [product];
    needs := needs0[product := At(needs0, product) + grams];
  }

  lemma MenuGrows(items: seq<MenuItem>, servings: real, days: int, k: nat,
                  start: map<Id, real>, before: map<Id, real>, after: map<Id, real>)
    requires k < |items|
    requires forall p :: At(before, p) == At(start, p) + ItemsNeed(items[..k], servings, days, p)
    requires before.Keys == start.Keys + MenuProducts(items[..k])
    requires after == before[items[k].product := At(before, items[k].product) + Grams(items[k], servings, days)]
    ensures forall p :: At(after, p) == At(start, p) + ItemsNeed(items[..k + 1], servings, days, p)
    ensures after.Keys == start.Keys + MenuProducts(items[..k + 1])
  {
    assert items[..k + 1][..k] == items[..k];
    MenuProductsSnoc(items, k);
    forall p ensures At(after, p) == At(start, p) + ItemsNeed(items[..k + 1], servings, days, p) {
      assert At(before, p) == At(start, p) + ItemsNeed(items[..k], servings, days, p);
    }
  }

  lemma MenuProductsSnoc(items: seq<MenuItem>, k: nat)
    requires k < |items|
    ensures MenuProducts(items[..k + 1]) == MenuProducts(items[..k]) + {items[k].product}
  {
  }

  method CollectMenu(menu: Menu, servings: real, days: int, order0: seq<Id>, needs0: map<Id, real>)
    returns (order: seq<Id>, needs: map<Id, real>)
    requires InOrder(order0, needs0)
    ensures InOrder(order, needs)
    ensures forall p :: At(needs, p) == At(needs0, p) + ItemsNeed(menu.items, servings, days, p)
    ensures needs.Keys == needs0.Keys + MenuProducts(menu.items)
  {
    order, needs := order0, needs0;
    for k := 0 to |menu.items|
      invariant InOrder(order, needs)
      invariant forall p :: At(needs, p) == At(needs0, p) + ItemsNeed(menu.items[..k], servings, days, p)
      invariant needs.Keys == needs0.Keys + MenuProducts(menu.items[..k])
    {
      ghost var before := needs;
      var item := menu.items[k];
      order, needs := AddGrams(order, needs, item.product, Grams(item, servings, days));
      MenuGrows(menu.items, servings, days, k, needs0, before, needs);
    }
    assert menu.items[..|menu.items|] == menu.items;
  }

  function MenuProducts(items: seq<MenuItem>): set<Id> {
    set i | 0 <= i < |items| :: items[i].product
  }

  function DemandProducts(g: Galley, demands: seq<Demand>): set<Id> {
    if demands == [] then {}
    else
      var d := demands[|demands| - 1];
      DemandProducts(g, demands[..|demands| - 1])
      + if (d.code, d.meal) in g.menus then MenuProducts(g.menus[(d.code, d.meal)].items) else {}
  }

  method Collect(g: Galley, aggregated: seq<Demand>, days: int) returns (order: seq<Id>, needs: map<Id, real>)
    ensures InOrder(order, needs) && needs.Keys == DemandProducts(g, aggregated)
    ensures forall p :: At(needs, p) == Need(g, aggregated, days, p)
  {
    order, needs := [], map[];
    for i := 0 to |aggregated|
      invariant InOrder(order, needs) && needs.Keys == DemandProducts(g, aggregated[..i])
      invariant forall p :: At(needs, p) == Need(g, aggregated[..i], days, p)
    {
      assert aggregated[..i + 1][..i] == aggregated[..i];
      var d := aggregated[i];
      if (d.code, d.meal) in g.menus {
        var menu := g.menus[(d.code, d.meal)];
        order, needs := CollectMenu(menu, Servings(menu, d.kcal), days, order, needs);
      }
    }
    assert aggregated[..|aggregated|] == aggregated;
  }

  /** What the lines for the given products cost before any rounding. */
  function Cost(g: Galley, demands: seq<Demand>, days: int, bufferPct: real, order: seq<Id>): real
    requires forall p :: p in order ==> p in g.products
  {
    if order == [] then 0.0
    else
      var p := order[|order| - 1];
      Cost(g, demands, days, bufferPct, order[..|order| - 1])
      + LineCost(g.products[p], Need(g, demands, days, p), bufferPct)
  }

  ghost predicate Priced(g: Galley, demands: seq<Demand>, days: int, bufferPct: real, order: seq<Id>, items: seq<Item>)
    requires days != 0
  {
    && |items| == |order|
    && (forall i :: 0 <= i < |order| ==> order[i] in g.products)
    && (forall i :: 0 <= i < |order|
          ==> items[i] == ItemOf(order[i], g.products[order[i]], Need(g, demands, days, order[i]), bufferPct, days))
  }

  method Price(g: Galley, order: seq<Id>, needs: map<Id, real>, bufferPct: real, days: int, ghost demands: seq<Demand>)
    returns (items: seq<Item>, total: real)
    requires days != 0 && (forall p :: p in order ==> p in g.products && p in needs)
    requires forall p :: At(needs, p) == Need(g, demands, days, p)
    ensures Priced(g, demands, days, bufferPct, order, items) && total == Cost(g, demands, days, bufferPct, order)
  {
    items, total := [], 0.0;
    for i := 0 to |order|
      invariant Priced(g, demands, days, bufferPct, order[..i], items)
      invariant total == Cost(g, demands, days, bufferPct, order[..i])
    {
      assert order[..i + 1][..i] == order[..i];
      var p := order[i];
      assert At(needs, p) == Need(g, demands, days, p);
      var product := g.products[p];
      items := items + [ItemOf(p, product, needs[p], bufferPct, days)];
      total := total + LineCost(product, needs[p], bufferPct);
    }
    assert order[..|order|] == order;
  }

  predicate DistinctCodes(crew: seq<Entry>) {
    forall i, j :: 0 <= i < j < |crew| ==> crew[i].code != crew[j].code
  }

  function ItemProducts(items: seq<Item>): (r: seq<Id>)
    ensures |r| == |items|
  {
    seq(|items|, i requires 0 <= i < |items| => items[i].product)
  }

  /** What a plan for this crew consists of, whatever the order of its items. */
  ghost predicate IsPlan(g: Galley, crew: seq<Entry>, days: int, bufferPct: real, plan: Plan)
    requires Known(g, crew) && days != 0
  {
    var demands, order := Demands(g, crew), ItemProducts(plan.items);
    && plan.crewCount == HeadCount(crew)
    && plan.totalKcal == RoundHalfEven((DailyKcal(g, crew) * days) as real * 100.0)
    && (forall i, j :: 0 <= i < j < |order| ==> order[i] != order[j])
    && (forall p :: p in order <==> p in DemandProducts(g, demands))
    && Priced(g, demands, days, bufferPct, order, plan.items)
    && plan.estimatedCost == RoundHalfEven(Cost(g, demands, days, bufferPct, order) * 100.0)
  }

  method CountHeads(crew: seq<Entry>) returns (heads: int)
    ensures heads == HeadCount(crew)
  {
    heads := 0;
    for i := 0 to |crew|
      invariant heads == HeadCount(crew[..i])
    {
      assert crew[..i + 1][..i] == crew[..i];
      heads := heads + crew[i].heads;
    }
    assert crew[..|crew|] == crew;
  }

  method ComputeVoyagePlan(g: Galley, voyageDays: int, crew: seq<Entry>, bufferDays: int, bufferPct: real)
    returns (r: Result<Plan, Error>)
    requires g.Valid() && DistinctCodes(crew)
    ensures var days := voyageDays + bufferDays;
            match r
            case Err(BadDates) => days <= 0
            case Err(NoCrew) => days > 0 && HeadCount(crew) <= 0
            case Err(UnknownNationality(code)) => days > 0 && HeadCount(crew) > 0
              && exists i :: 0 <= i < |crew| && crew[i].code == code && code !in g.targets && Known(g, crew[..i])
            case Ok(plan) => days > 0 && HeadCount(crew) > 0 && Known(g, crew) && IsPlan(g, crew, days, bufferPct, plan)
  {
    var days := voyageDays + bufferDays;
    if days <= 0 { return Err(BadDates); }
    var heads := CountHeads(crew);
    if heads <= 0 { return Err(NoCrew); }
    var kcal := 0;
    for i := 0 to |crew|
      invariant Known(g, crew[..i]) && kcal == DailyKcal(g, crew[..i])
    {
      assert crew[..i + 1][..i] == crew[..i];
      if crew[i].code !in g.targets { return Err(UnknownNationality(crew[i].code)); }
      kcal := kcal + g.targets[crew[i].code] * crew[i].heads;
    }
    assert crew[..|crew|] == crew;
    var plan := Provision(g, crew, days, bufferPct, heads, kcal);
    return Ok(plan);
  }

  method Provision(g: Galley, crew: seq<Entry>, days: int, bufferPct: real, heads: int, kcal: int) returns (plan: Plan)
    requires g.Valid() && Known(g, crew) && days > 0 && heads == HeadCount(crew) && kcal == DailyKcal(g, crew)
    ensures IsPlan(g, crew, days, bufferPct, plan)
  {
    var aggregated := Aggregate(g, crew);
    var order, needs := Collect(g, aggregated, days);
    ProductsExist(g, aggregated);
    var items, total := Price(g, order, needs, bufferPct, days, aggregated);
    plan := Plan(heads, RoundHalfEven((kcal * days) as real * 100.0), RoundHalfEven(total * 100.0), items);
    PricedProducts(g, aggregated, days, bufferPct, order, items);
  }

  lemma PricedProducts(g: Galley, demands: seq<Demand>, days: int, bufferPct: real, order: seq<Id>, items: seq<Item>)
    requires days != 0 && Priced(g, demands, days, bufferPct, order, items)
    ensures ItemProducts(items) == order
  {
    forall i | 0 <= i < |order| ensures items[i].product == order[i] {
    }
  }

  lemma {:induction false} ProductsExist(g: Galley, demands: seq<Demand>)
    requires g.Valid()
    ensures DemandProducts(g, demands) <= g.products.Keys
  {
    if demands != [] { ProductsExist(g, demands[..|demands| - 1]); }
  }

  // ----- calories -----

  /** The five meals of a nationality add up to headcount times daily target, exactly. */
  lemma MealsSumToTarget(g: Galley, e: Entry)
    requires e.code in g.targets
    ensures SumKcal(EntryDemands(g, e)) == e.heads as real * g.targets[e.code] as real
  {
    var x, d := e.heads as real * g.targets[e.code] as real, EntryDemands(g, e);
    SumOfFive(d[0], d[1], d[2], d[3], d[4]);
    assert d == [d[0], d[1], d[2], d[3], d[4]];
    assert x * 0.25 + x * 0.30 + x * 0.30 + x * 0.10 + x * 0.05 == x;
  }

  lemma SumOfFive(a: Demand, b: Demand, c: Demand, d: Demand, e: Demand)
    ensures SumKcal([a, b, c, d, e]) == a.kcal + b.kcal + c.kcal + d.kcal + e.kcal
  {
    SumKcalAppend([a, b, c, d], [e]);
    SumKcalAppend([a, b, c], [d]);
    SumKcalAppend([a, b], [c]);
    SumKcalAppend([a], [b]);
    assert [a, b, c, d] + [e] == [a, b, c, d, e] && [a, b, c] + [d] == [a, b, c, d];
    assert [a, b] + [c] == [a, b, c] && [a] + [b] == [a, b];
  }

  lemma {:induction false} SumKcalAppend(a: seq<Demand>, b: seq<Demand>)
    ensures SumKcal(a + b) == SumKcal(a) + SumKcal(b)
  {
    if b == [] {
      assert a + b == a;
    } else {
      SumKcalAppend(a, b[..|b| - 1]);
      assert (a + b)[..|a + b| - 1] == a + b[..|b| - 1];
    }
  }

  /** No calorie is lost between the daily target and the meals. */
  lemma {:induction false} CaloriesConserved(g: Galley, crew: seq<Entry>)
    requires Known(g, crew)
    ensures SumKcal(Demands(g, crew)) == DailyKcal(g, crew) as real
  {
    if crew != [] {
      var n := |crew| - 1;
      CaloriesConserved(g, crew[..n]);
      MealsSumToTarget(g, crew[n]);
      SumKcalAppend(Demands(g, crew[..n]), EntryDemands(g, crew[n]));
    }
  }

  // ----- rounding of the cost -----

  function SumLines(items: seq<Item>): int {
    if items == [] then 0 else SumLines(items[..|items| - 1]) + items[|items| - 1].lineTotal
  }

  lemma {:induction false} LinesRound(g: Galley, demands: seq<Demand>, days: int, bufferPct: real, order: seq<Id>,
                                      items: seq<Item>)
    requires days != 0 && Priced(g, demands, days, bufferPct, order, items)
    requires forall p :: p in order ==> p in g.products
    ensures -0.5 * |items| as real <= Cost(g, demands, days, bufferPct, order) * 10000.0 - SumLines(items) as real
            <= 0.5 * |items| as real
  {
    if order != [] {
      var n := |order| - 1;
      assert forall p :: p in order[..n] ==> p in order;
      LinesRound(g, demands, days, bufferPct, order[..n], items[..n]);
    }
  }

  /** The estimated cost and the sum of the line totals differ by at most 0.005 + 0.00005 per item. */
  lemma CostMatchesLines(g: Galley, crew: seq<Entry>, days: int, bufferPct: real, plan: Plan)
    requires Known(g, crew) && days != 0 && IsPlan(g, crew, days, bufferPct, plan)
    ensures var gap := plan.estimatedCost as real / 100.0 - SumLines(plan.items) as real / 10000.0;
            Abs(gap) <= 0.005 + 0.00005 * |plan.items| as real
  {
    var order := ItemProducts(plan.items);
    assert forall p :: p in order ==> p in g.products;
    LinesRound(g, Demands(g, crew), days, bufferPct, order, plan.items);
  }

  // ----- additivity -----

  /** c asks for what a and b ask for together, entry by entry. */
  ghost predicate Together(a: seq<Demand>, b: seq<Demand>, c: seq<Demand>) {
    && |a| == |b| == |c|
    && forall i :: 0 <= i < |a| ==> SumsUp(a[i], b[i], c[i])
  }

  predicate SumsUp(a: Demand, b: Demand, c: Demand) {
    a.code == b.code == c.code && a.meal == b.meal == c.meal && c.kcal == a.kcal + b.kcal
  }

  lemma GramsAdd(item: MenuItem, s: real, t: real, days: int)
    ensures Grams(item, s + t, days) == Grams(item, s, days) + Grams(item, t, days)
  {
    assert item.servingGrams * (s + t) == item.servingGrams * s + item.servingGrams * t;
  }

  lemma {:induction false} ItemsAdd(items: seq<MenuItem>, s: real, t: real, days: int, p: Id)
    ensures ItemsNeed(items, s + t, days, p) == ItemsNeed(items, s, days, p) + ItemsNeed(items, t, days, p)
  {
    if items != [] {
      ItemsAdd(items[..|items| - 1], s, t, days, p);
      GramsAdd(items[|items| - 1], s, t, days);
    }
  }

  lemma QuotientAdds(a: real, b: real, m: real)
    requires m != 0.0
    ensures (a + b) / m == a / m + b / m
  {
  }

  lemma DemandAdds(g: Galley, a: Demand, b: Demand, c: Demand, days: int, p: Id)
    requires SumsUp(a, b, c)
    ensures DemandNeed(g, c, days, p) == DemandNeed(g, a, days, p) + DemandNeed(g, b, days, p)
  {
    if (a.code, a.meal) in g.menus {
      var menu := g.menus[(a.code, a.meal)];
      QuotientAdds(a.kcal, b.kcal, if menu.targetKcal > 1 then menu.targetKcal as real else 1.0);
      ItemsAdd(menu.items, Servings(menu, a.kcal), Servings(menu, b.kcal), days, p);
    }
  }

  lemma {:induction false} NeedAdds(g: Galley, a: seq<Demand>, b: seq<Demand>, c: seq<Demand>, days: int, p: Id)
    requires Together(a, b, c)
    ensures Need(g, c, days, p) == Need(g, a, days, p) + Need(g, b, days, p)
  {
    if a != [] {
      var n := |a| - 1;
      NeedAdds(g, a[..n], b[..n], c[..n], days, p);
      DemandAdds(g, a[n], b[n], c[n], days, p);
    }
  }

  /** The same nationalities in the same order, with the heads of a and b added. */
  ghost predicate Merged(a: seq<Entry>, b: seq<Entry>, c: seq<Entry>) {
    && |a| == |b| == |c|
    && forall i :: 0 <= i < |a| ==> a[i].code == b[i].code == c[i].code && c[i].heads == a[i].heads + b[i].heads
  }

  lemma HeadsAdd(h: int, k: int, t: real, f: real)
    ensures (h + k) as real * t * f == h as real * t * f + k as real * t * f
  {
    assert (h + k) as real == h as real + k as real;
    assert (h + k) as real * t == h as real * t + k as real * t;
  }

  lemma EntriesTogether(g: Galley, a: Entry, b: Entry, c: Entry)
    requires a.code in g.targets && a.code == b.code == c.code && c.heads == a.heads + b.heads
    ensures Together(EntryDemands(g, a), EntryDemands(g, b), EntryDemands(g, c))
  {
    forall k | 0 <= k < |MEALS| ensures SumsUp(EntryDemands(g, a)[k], EntryDemands(g, b)[k], EntryDemands(g, c)[k]) {
      HeadsAdd(a.heads, b.heads, g.targets[a.code] as real, Share(MEALS[k]));
    }
  }

  lemma TogetherAppend(a: seq<Demand>, b: seq<Demand>, c: seq<Demand>, x: seq<Demand>, y: seq<Demand>, z: seq<Demand>)
    requires Together(a, b, c) && Together(x, y, z)
    ensures Together(a + x, b + y, c + z)
  {
  }

  lemma {:induction false} CrewsTogether(g: Galley, a: seq<Entry>, b: seq<Entry>, c: seq<Entry>)
    requires Merged(a, b, c) && Known(g, a) && Known(g, b) && Known(g, c)
    ensures Together(Demands(g, a), Demands(g, b), Demands(g, c))
  {
    if a != [] {
      var n := |a| - 1;
      CrewsTogether(g, a[..n], b[..n], c[..n]);
      EntriesTogether(g, a[n], b[n], c[n]);
      TogetherAppend(Demands(g, a[..n]), Demands(g, b[..n]), Demands(g, c[..n]),
                     EntryDemands(g, a[n]), EntryDemands(g, b[n]), EntryDemands(g, c[n]));
    }
  }

  /** The grams of every product are additive in the crew breakdown. */
  lemma GramsAdditive(g: Galley, a: seq<Entry>, b: seq<Entry>, c: seq<Entry>, days: int, p: Id)
    requires Merged(a, b, c) && Known(g, a) && Known(g, b) && Known(g, c)
    ensures Need(g, Demands(g, c), days, p) == Need(g, Demands(g, a), days, p) + Need(g, Demands(g, b), days, p)
  {
    CrewsTogether(g, a, b, c);
    NeedAdds(g, Demands(g, a), Demands(g, b), Demands(g, c), days, p);
  }

  // ----- the order of the crew breakdown -----

  lemma {:induction false} NeedAppend(g: Galley, a: seq<Demand>, b: seq<Demand>, days: int, p: Id)
    ensures Need(g, a + b, days, p) == Need(g, a, days, p) + Need(g, b, days, p)
  {
    if b == [] {
      assert a + b == a;
    } else {
      NeedAppend(g, a, b[..|b| - 1], days, p);
      assert (a + b)[..|a + b| - 1] == a + b[..|b| - 1];
    }
  }

  lemma {:induction false} ProductsAppend(g: Galley, a: seq<Demand>, b: seq<Demand>)
    ensures DemandProducts(g, a + b) == DemandProducts(g, a) + DemandProducts(g, b)
  {
    if b == [] {
      assert a + b == a;
    } else {
      ProductsAppend(g, a, b[..|b| - 1]);
      assert (a + b)[..|a + b| - 1] == a + b[..|b| - 1];
    }
  }

  /** The four quantities of a crew that a plan is made from. */
  ghost predicate SameQuantities(g: Galley, a: seq<Entry>, b: seq<Entry>, days: int)
    requires Known(g, a) && Known(g, b)
  {
    && HeadCount(a) == HeadCount(b)
    && DailyKcal(g, a) == DailyKcal(g, b)
    && DemandProducts(g, Demands(g, a)) == DemandProducts(g, Demands(g, b))
    && forall p :: SameNeed(g, a, b, days, p)
  }

  ghost predicate SameNeed(g: Galley, a: seq<Entry>, b: seq<Entry>, days: int, p: Id)
    requires Known(g, a) && Known(g, b)
  {
    Need(g, Demands(g, a), days, p) == Need(g, Demands(g, b), days, p)
  }

  lemma QuantitiesFrom(g: Galley, a: seq<Entry>, b: seq<Entry>, days: int, d: seq<Demand>, e: seq<Demand>)
    requires Known(g, a) && Known(g, b) && Demands(g, a) == d && Demands(g, b) == e
    requires HeadCount(a) == HeadCount(b) && DailyKcal(g, a) == DailyKcal(g, b)
    requires DemandProducts(g, d) == DemandProducts(g, e)
    requires forall p :: Need(g, d, days, p) == Need(g, e, days, p)
    ensures SameQuantities(g, a, b, days)
  {
  }

  lemma SameNeedAppended(g: Galley, d: seq<Demand>, e: seq<Demand>, x: seq<Demand>, days: int, p: Id)
    requires Need(g, d, days, p) == Need(g, e, days, p)
    ensures Need(g, d + x, days, p) == Need(g, e + x, days, p)
  {
    NeedAppend(g, d, x, days, p);
    NeedAppend(g, e, x, days, p);
  }

  lemma SnocQuantities(g: Galley, a: seq<Entry>, b: seq<Entry>, x: Entry, days: int)
    requires Known(g, a) && Known(g, b) && x.code in g.targets && SameQuantities(g, a, b, days)
    ensures SameQuantities(g, a + [x], b + [x], days)
  {
    var d, e, dx := Demands(g, a), Demands(g, b), EntryDemands(g, x);
    assert (a + [x])[..|a|] == a && (b + [x])[..|b|] == b;
    ProductsAppend(g, d, dx);
    ProductsAppend(g, e, dx);
    forall p ensures Need(g, d + dx, days, p) == Need(g, e + dx, days, p) {
      assert SameNeed(g, a, b, days, p);
      SameNeedAppended(g, d, e, dx, days, p);
    }
    QuantitiesFrom(g, a + [x], b + [x], days, d + dx, e + dx);
  }

  lemma DemandsOfTwo(g: Galley, a: seq<Entry>, x: Entry, y: Entry)
    requires Known(g, a) && x.code in g.targets && y.code in g.targets
    ensures Demands(g, a + [x] + [y]) == Demands(g, a) + EntryDemands(g, x) + EntryDemands(g, y)
  {
    assert (a + [x] + [y])[..|a| + 1] == a + [x] && (a + [x])[..|a|] == a;
  }

  lemma CountsOfTwo(g: Galley, a: seq<Entry>, x: Entry, y: Entry)
    requires Known(g, a) && x.code in g.targets && y.code in g.targets
    ensures HeadCount(a + [x] + [y]) == HeadCount(a + [y] + [x])
    ensures DailyKcal(g, a + [x] + [y]) == DailyKcal(g, a + [y] + [x])
  {
    assert (a + [x] + [y])[..|a| + 1] == a + [x] && (a + [x])[..|a|] == a;
    assert (a + [y] + [x])[..|a| + 1] == a + [y] && (a + [y])[..|a|] == a;
  }

  lemma SwapNeeds(g: Galley, d: seq<Demand>, dx: seq<Demand>, dy: seq<Demand>, days: int)
    ensures forall p :: Need(g, d + dx + dy, days, p) == Need(g, d + dy + dx, days, p)
  {
    forall p ensures Need(g, d + dx + dy, days, p) == Need(g, d + dy + dx, days, p) {
      NeedAppend(g, d, dx, days, p);
      NeedAppend(g, d + dx, dy, days, p);
      NeedAppend(g, d, dy, days, p);
      NeedAppend(g, d + dy, dx, days, p);
    }
  }

  lemma SwapProducts(g: Galley, d: seq<Demand>, dx: seq<Demand>, dy: seq<Demand>)
    ensures DemandProducts(g, d + dx + dy) == DemandProducts(g, d + dy + dx)
  {
    ProductsAppend(g, d, dx);
    ProductsAppend(g, d + dx, dy);
    ProductsAppend(g, d, dy);
    ProductsAppend(g, d + dy, dx);
  }

  /** The last two entries may be exchanged. */
  lemma SwapQuantities(g: Galley, a: seq<Entry>, x: Entry, y: Entry, days: int)
    requires Known(g, a) && x.code in g.targets && y.code in g.targets
    ensures SameQuantities(g, a + [x] + [y], a + [y] + [x], days)
  {
    var d, dx, dy := Demands(g, a), EntryDemands(g, x), EntryDemands(g, y);
    DemandsOfTwo(g, a, x, y);
    DemandsOfTwo(g, a, y, x);
    CountsOfTwo(g, a, x, y);
    SwapProducts(g, d, dx, dy);
    SwapNeeds(g, d, dx, dy, days);
    QuantitiesFrom(g, a + [x] + [y], a + [y] + [x], days, d + dx + dy, d + dy + dx);
  }

  lemma SameQuantitiesTransitive(g: Galley, a: seq<Entry>, b: seq<Entry>, c: seq<Entry>, days: int)
    requires Known(g, a) && Known(g, b) && Known(g, c)
    requires SameQuantities(g, a, b, days) && SameQuantities(g, b, c, days)
    ensures SameQuantities(g, a, c, days)
  {
    forall p ensures SameNeed(g, a, c, days, p) {
      assert SameNeed(g, a, b, days, p) && SameNeed(g, b, c, days, p);
    }
  }

  /** An entry may be moved to the end. */
  lemma {:induction false} MoveToEnd(g: Galley, a: seq<Entry>, x: Entry, b: seq<Entry>, days: int)
    requires Known(g, a) && Known(g, b) && x.code in g.targets
    ensures Known(g, a + [x] + b) && Known(g, a + b + [x]) && SameQuantities(g, a + [x] + b, a + b + [x], days)
  {
    if b == [] {
      assert a + [x] + b == a + b + [x];
    } else {
      var front, y := b[..|b| - 1], b[|b| - 1];
      MoveToEnd(g, a, x, front, days);
      MoveStep(g, a + [x] + front, a + front, x, y, days);
      SnocMoved(a, x, front, y);
      assert b == front + [y];
    }
  }

  lemma SnocMoved(a: seq<Entry>, x: Entry, b: seq<Entry>, y: Entry)
    ensures a + [x] + (b + [y]) == a + [x] + b + [y] && a + (b + [y]) + [x] == a + b + [y] + [x]
  {
  }

  lemma MoveStep(g: Galley, moved: seq<Entry>, front: seq<Entry>, x: Entry, y: Entry, days: int)
    requires Known(g, moved) && Known(g, front) && x.code in g.targets && y.code in g.targets
    requires SameQuantities(g, moved, front + [x], days)
    ensures SameQuantities(g, moved + [y], front + [y] + [x], days)
  {
    SnocQuantities(g, moved, front + [x], y, days);
    SwapQuantities(g, front, x, y, days);
    SameQuantitiesTransitive(g, moved + [y], front + [x] + [y], front + [y] + [x], days);
  }

  lemma WithoutOne(a: seq<Entry>, b1: seq<Entry>, x: Entry, b2: seq<Entry>)
    requires multiset(a + [x]) == multiset(b1 + [x] + b2)
    ensures multiset(a) == multiset(b1 + b2)
  {
    assert multiset(a) == multiset(a + [x]) - multiset{x};
    assert multiset(b1 + b2) == multiset(b1 + [x] + b2) - multiset{x};
  }

  lemma KnownParts(g: Galley, a: seq<Entry>, b: seq<Entry>)
    requires Known(g, a + b)
    ensures Known(g, a) && Known(g, b)
  {
    assert forall i :: 0 <= i < |a| ==> (a + b)[i] == a[i];
    assert forall i :: 0 <= i < |b| ==> (a + b)[|a| + i] == b[i];
  }

  /** Where the last entry of a list sits in a permutation of it. */
  lemma LastFound(a: seq<Entry>, b: seq<Entry>) returns (front: seq<Entry>, x: Entry, b1: seq<Entry>, b2: seq<Entry>)
    requires multiset(a) == multiset(b) && a != []
    ensures a == front + [x] && b == b1 + [x] + b2 && |front| < |a|
    ensures multiset(front) == multiset(b1 + b2)
  {
    front, x := a[..|a| - 1], a[|a| - 1];
    assert a == front + [x] && x in multiset(b);
    var i :| 0 <= i < |b| && b[i] == x;
    b1, b2 := b[..i], b[i + 1..];
    assert b == b1 + [x] + b2;
    WithoutOne(front, b1, x, b2);
  }

  lemma {:induction false} PermutedQuantities(g: Galley, a: seq<Entry>, b: seq<Entry>, days: int)
    requires Known(g, a) && Known(g, b) && multiset(a) == multiset(b)
    ensures SameQuantities(g, a, b, days)
    decreases |a|
  {
    if a == [] {
      assert |multiset(b)| == 0;
    } else {
      var front, x, b1, b2 := LastFound(a, b);
      assert b == b1 + ([x] + b2);
      KnownParts(g, front, [x]);
      KnownParts(g, b1, [x] + b2);
      KnownParts(g, [x], b2);
      PermutedQuantities(g, front, b1 + b2, days);
      PermutedStep(g, front, b1, x, b2, days);
    }
  }

  lemma PermutedStep(g: Galley, a: seq<Entry>, b1: seq<Entry>, x: Entry, b2: seq<Entry>, days: int)
    requires Known(g, a) && Known(g, b1) && Known(g, b2) && x.code in g.targets && SameQuantities(g, a, b1 + b2, days)
    ensures SameQuantities(g, a + [x], b1 + [x] + b2, days)
  {
    SnocQuantities(g, a, b1 + b2, x, days);
    MoveToEnd(g, b1, x, b2, days);
    SameQuantitiesBack(g, b1 + [x] + b2, b1 + b2 + [x], days);
    SameQuantitiesTransitive(g, a + [x], b1 + b2 + [x], b1 + [x] + b2, days);
  }

  lemma SameQuantitiesBack(g: Galley, a: seq<Entry>, b: seq<Entry>, days: int)
    requires Known(g, a) && Known(g, b) && SameQuantities(g, a, b, days)
    ensures SameQuantities(g, b, a, days)
  {
    forall p ensures SameNeed(g, b, a, days, p) {
      assert SameNeed(g, a, b, days, p);
    }
  }

  // ----- whole plans -----

  /** Lists without repetition that hold the same products. */
  ghost predicate SameProducts(a: seq<Id>, b: seq<Id>) {
    && (forall i, j :: 0 <= i < j < |a| ==> a[i] != a[j])
    && (forall i, j :: 0 <= i < j < |b| ==> b[i] != b[j])
    && (forall p :: p in a <==> p in b)
  }

  lemma {:induction false} CostMoveToEnd(g: Galley, d: seq<Demand>, days: int, bufferPct: real, a: seq<Id>, x: Id,
                                         b: seq<Id>)
    requires forall p :: p in a + [x] + b ==> p in g.products
    ensures Cost(g, d, days, bufferPct, a + [x] + b)
         == Cost(g, d, days, bufferPct, a + b) + LineCost(g.products[x], Need(g, d, days, x), bufferPct)
  {
    if b == [] {
      assert a + [x] + b == a + [x] && a + b == a && (a + [x])[..|a|] == a;
    } else {
      var n := |b| - 1;
      assert (a + [x] + b)[..|a| + 1 + n] == a + [x] + b[..n] && (a + b)[..|a| + n] == a + b[..n];
      CostMoveToEnd(g, d, days, bufferPct, a, x, b[..n]);
    }
  }

  lemma SameProductsWithout(a: seq<Id>, b: seq<Id>, i: nat)
    requires SameProducts(a, b) && a != [] && i < |b| && b[i] == a[|a| - 1]
    ensures SameProducts(a[..|a| - 1], b[..i] + b[i + 1..])
  {
    var n, c := |a| - 1, b[..i] + b[i + 1..];
    assert a == a[..n] + [a[n]] && b == b[..i] + [b[i]] + b[i + 1..];
    assert forall k :: 0 <= k < |c| ==> c[k] == b[if k < i then k else k + 1];
    forall p ensures p in a[..n] <==> p in c {
      assert p in a <==> p in b;
      if p == a[n] {
        assert p !in a[..n] && p !in c;
      }
    }
  }

  lemma {:induction false} CostPermuted(g: Galley, d: seq<Demand>, e: seq<Demand>, days: int, bufferPct: real,
                                        a: seq<Id>, b: seq<Id>)
    requires SameProducts(a, b) && forall p :: p in a ==> p in g.products
    requires forall p :: Need(g, d, days, p) == Need(g, e, days, p)
    ensures Cost(g, d, days, bufferPct, a) == Cost(g, e, days, bufferPct, b)
  {
    if a == [] {
      assert forall p :: p !in b;
    } else {
      var n, x := |a| - 1, a[|a| - 1];
      assert x in b;
      var i :| 0 <= i < |b| && b[i] == x;
      SameProductsWithout(a, b, i);
      assert b == b[..i] + [x] + b[i + 1..];
      CostMoveToEnd(g, e, days, bufferPct, b[..i], x, b[i + 1..]);
      CostPermuted(g, d, e, days, bufferPct, a[..n], b[..i] + b[i + 1..]);
    }
  }

  lemma SameItem(g: Galley, d: seq<Demand>, e: seq<Demand>, days: int, bufferPct: real,
                 a: seq<Id>, items: seq<Item>, b: seq<Id>, items': seq<Item>, item: Item)
    requires days != 0 && Priced(g, d, days, bufferPct, a, items) && Priced(g, e, days, bufferPct, b, items')
    requires SameProducts(a, b) && item in items
    requires forall p :: Need(g, d, days, p) == Need(g, e, days, p)
    ensures item in items'
  {
    var i :| 0 <= i < |items| && items[i] == item;
    assert a[i] in b;
    var j :| 0 <= j < |b| && b[j] == a[i];
    assert items'[j] == item;
  }

  lemma SameItems(g: Galley, d: seq<Demand>, e: seq<Demand>, days: int, bufferPct: real,
                  a: seq<Id>, items: seq<Item>, b: seq<Id>, items': seq<Item>)
    requires days != 0 && Priced(g, d, days, bufferPct, a, items) && Priced(g, e, days, bufferPct, b, items')
    requires SameProducts(a, b)
    requires forall p :: Need(g, d, days, p) == Need(g, e, days, p)
    ensures forall item :: item in items <==> item in items'
  {
    forall item | item in items ensures item in items' {
      SameItem(g, d, e, days, bufferPct, a, items, b, items', item);
    }
    forall item | item in items' ensures item in items {
      SameItem(g, e, d, days, bufferPct, b, items', a, items, item);
    }
  }

  lemma PlansBuyTheSame(g: Galley, a: seq<Entry>, b: seq<Entry>, days: int, bufferPct: real, p: Plan, q: Plan)
    requires Known(g, a) && Known(g, b) && days != 0 && SameQuantities(g, a, b, days)
    requires IsPlan(g, a, days, bufferPct, p) && IsPlan(g, b, days, bufferPct, q)
    ensures SameProducts(ItemProducts(p.items), ItemProducts(q.items))
  {
  }

  /** Two plans for the same crew, entered in any two orders, agree in everything but the order of their items. */
  lemma OrderOfCrewIsIrrelevant(g: Galley, a: seq<Entry>, b: seq<Entry>, days: int, bufferPct: real, p: Plan, q: Plan)
    requires Known(g, a) && Known(g, b) && multiset(a) == multiset(b) && days != 0
    requires IsPlan(g, a, days, bufferPct, p) && IsPlan(g, b, days, bufferPct, q)
    ensures p.crewCount == q.crewCount && p.totalKcal == q.totalKcal && p.estimatedCost == q.estimatedCost
    ensures forall item :: item in p.items <==> item in q.items
  {
    PermutedQuantities(g, a, b, days);
    var d, e := Demands(g, a), Demands(g, b);
    var order, order' := ItemProducts(p.items), ItemProducts(q.items);
    PlansBuyTheSame(g, a, b, days, bufferPct, p, q);
    SameNeeds(g, a, b, days);
    CostPermuted(g, d, e, days, bufferPct, order, order');
    SameItems(g, d, e, days, bufferPct, order, p.items, order', q.items);
  }

  lemma SameNeeds(g: Galley, a: seq<Entry>, b: seq<Entry>, days: int)
    requires Known(g, a) && Known(g, b) && SameQuantities(g, a, b, days)
    ensures forall p :: Need(g, Demands(g, a), days, p) == Need(g, Demands(g, b), days, p)
  {
    forall p ensures Need(g, Demands(g, a), days, p) == Need(g, Demands(g, b), days, p) {
      assert SameNeed(g, a, b, days, p);
    }
  }
}
