/** What a provisioning plan buys, against a reference that knows neither demands nor servings. */
module Quantities {
  import opened Rounding
  import opened Catering

  // ----- the reference -----

  /** Grams of a product in one serving of a whole menu. */
  ghost function Portion(items: seq<MenuItem>, p: Id): real {
    if items == [] then 0.0
    else
      var last := items[|items| - 1];
      Portion(items[..|items| - 1], p) + if last.product == p then last.servingGrams else 0.0
  }

  /** Grams of a product per calorie that a nationality eats at a meal. */
  ghost function PerKcal(g: Galley, code: string, meal: Meal, p: Id): real {
    if (code, meal) !in g.menus then 0.0
    else
      var menu := g.menus[(code, meal)];
      if menu.targetKcal >= 1 then Portion(menu.items, p) / menu.targetKcal as real else Portion(menu.items, p)
  }

  /** Calories that an entry of the crew breakdown eats in a day. */
  ghost function Eats(g: Galley, e: Entry): int
    requires e.code in g.targets
  {
    e.heads * g.targets[e.code]
  }

  /** Grams of a product that an entry of the crew breakdown eats in a day at a meal with this share of the calories. */
  ghost function AtMeal(g: Galley, e: Entry, meal: Meal, share: real, p: Id): real
    requires e.code in g.targets
  {
    share * Eats(g, e) as real * PerKcal(g, e.code, meal, p)
  }

  /** Grams of a product that the whole crew eats in a day. */
  ghost function DailyGrams(g: Galley, crew: seq<Entry>, p: Id): real
    requires Known(g, crew)
  {
    if crew == [] then 0.0
    else
      var last := crew[|crew| - 1];
      DailyGrams(g, crew[..|crew| - 1], p)
        + AtMeal(g, last, Breakfast, 0.25, p) + AtMeal(g, last, Lunch, 0.3, p) + AtMeal(g, last, Dinner, 0.3, p)
        + AtMeal(g, last, Snack, 0.1, p) + AtMeal(g, last, Midnight, 0.05, p)
  }

  // ----- servings -----

  lemma ItemGrams(grams: real, servings: real, days: int, rest: real)
    ensures rest * servings * days as real + grams * servings * days as real
         == (rest + grams) * servings * days as real
  {
    assert rest * servings + grams * servings == (rest + grams) * servings;
  }

  lemma {:induction false} MenuGrams(items: seq<MenuItem>, servings: real, days: int, p: Id)
    ensures ItemsNeed(items, servings, days, p) == Portion(items, p) * servings * days as real
  {
    if items != [] {
      var front, last := items[..|items| - 1], items[|items| - 1];
      MenuGrams(front, servings, days, p);
      if last.product == p { ItemGrams(last.servingGrams, servings, days, Portion(front, p)); }
    }
  }

  /** The servings of a menu provide exactly the calories asked for; a target below 1 counts as 1. */
  lemma ServingsProvide(menu: Menu, kcal: real)
    ensures Servings(menu, kcal) * (if menu.targetKcal >= 1 then menu.targetKcal as real else 1.0) == kcal
  {
  }

  lemma Regroup(portion: real, servings: real, target: real, kcal: real, days: real)
    requires target != 0.0 && servings * target == kcal
    ensures portion * servings * days == days * (kcal * (portion / target))
  {
    var q := portion / target;
    assert q * target == portion;
    assert portion * servings == q * (servings * target);
  }

  /** Grams of a product that one demand asks for in a day. */
  ghost function Daily(g: Galley, d: Demand, p: Id): real {
    d.kcal * PerKcal(g, d.code, d.meal, p)
  }

  ghost function AllDaily(g: Galley, demands: seq<Demand>, p: Id): real {
    if demands == [] then 0.0 else AllDaily(g, demands[..|demands| - 1], p) + Daily(g, demands[|demands| - 1], p)
  }

  lemma MealGrams(g: Galley, d: Demand, days: int, p: Id)
    ensures DemandNeed(g, d, days, p) == days as real * Daily(g, d, p)
  {
    if (d.code, d.meal) in g.menus {
      var menu := g.menus[(d.code, d.meal)];
      var target := if menu.targetKcal >= 1 then menu.targetKcal as real else 1.0;
      ServingsProvide(menu, d.kcal);
      MenuGrams(menu.items, Servings(menu, d.kcal), days, p);
      Regroup(Portion(menu.items, p), Servings(menu, d.kcal), target, d.kcal, days as real);
    }
  }

  lemma Distribute(days: real, a: real, b: real, sum: real)
    requires sum == a + b
    ensures days * a + days * b == days * sum
  {
  }

  lemma {:induction false} DaysMultiply(g: Galley, demands: seq<Demand>, days: int, p: Id)
    ensures Need(g, demands, days, p) == days as real * AllDaily(g, demands, p)
  {
    if demands != [] {
      var front, last := demands[..|demands| - 1], demands[|demands| - 1];
      DaysMultiply(g, front, days, p);
      MealGrams(g, last, days, p);
      Distribute(days as real, AllDaily(g, front, p), Daily(g, last, p), AllDaily(g, demands, p));
    }
  }

  // ----- the whole crew -----

  lemma DailySnoc(g: Galley, demands: seq<Demand>, d: Demand, p: Id)
    ensures AllDaily(g, demands + [d], p) == AllDaily(g, demands, p) + Daily(g, d, p)
  {
    assert (demands + [d])[..|demands|] == demands;
  }

  lemma FiveMeals(g: Galley, x: seq<Demand>, a: Demand, b: Demand, c: Demand, d: Demand, e: Demand, p: Id)
    ensures AllDaily(g, x + [a, b, c, d, e], p)
         == AllDaily(g, x, p) + Daily(g, a, p) + Daily(g, b, p) + Daily(g, c, p) + Daily(g, d, p) + Daily(g, e, p)
  {
    DailySnoc(g, x, a, p);
    DailySnoc(g, x + [a], b, p);
    DailySnoc(g, x + [a] + [b], c, p);
    DailySnoc(g, x + [a] + [b] + [c], d, p);
    DailySnoc(g, x + [a] + [b] + [c] + [d], e, p);
    assert x + [a, b, c, d, e] == x + [a] + [b] + [c] + [d] + [e];
  }

  lemma EntryMeal(g: Galley, e: Entry, meal: Meal, share: real, p: Id)
    requires e.code in g.targets && share == Share(meal)
    ensures Daily(g, EntryDemand(g, e, meal), p) == AtMeal(g, e, meal, share, p)
  {
    assert Eats(g, e) as real == e.heads as real * g.targets[e.code] as real;
  }

  lemma EntryGrams(g: Galley, demands: seq<Demand>, e: Entry, p: Id)
    requires e.code in g.targets
    ensures AllDaily(g, demands + EntryDemands(g, e), p)
         == AllDaily(g, demands, p) + AtMeal(g, e, Breakfast, 0.25, p) + AtMeal(g, e, Lunch, 0.3, p)
            + AtMeal(g, e, Dinner, 0.3, p) + AtMeal(g, e, Snack, 0.1, p) + AtMeal(g, e, Midnight, 0.05, p)
  {
    var d := EntryDemands(g, e);
    assert d == [d[0], d[1], d[2], d[3], d[4]];
    FiveMeals(g, demands, d[0], d[1], d[2], d[3], d[4], p);
    EntryMeal(g, e, Breakfast, 0.25, p);
    EntryMeal(g, e, Lunch, 0.3, p);
    EntryMeal(g, e, Dinner, 0.3, p);
    EntryMeal(g, e, Snack, 0.1, p);
    EntryMeal(g, e, Midnight, 0.05, p);
  }

  lemma {:induction false} CrewGrams(g: Galley, crew: seq<Entry>, p: Id)
    requires Known(g, crew)
    ensures AllDaily(g, Demands(g, crew), p) == DailyGrams(g, crew, p)
  {
    if crew != [] {
      var front, last := crew[..|crew| - 1], crew[|crew| - 1];
      CrewGrams(g, front, p);
      EntryGrams(g, Demands(g, front), last, p);
    }
  }

  lemma SameProduct(days: real, x: real, y: real)
    requires x == y
    ensures days * x == days * y
  {
  }

  /**
   The grams collected of a product are the days times what the crew eats of it in a day: for every nationality,
   heads times daily calories, split over the five meals and turned into grams by each meal's menu.
   */
  lemma NeedExactly(g: Galley, crew: seq<Entry>, days: int, p: Id)
    requires Known(g, crew)
    ensures Need(g, Demands(g, crew), days, p) == days as real * DailyGrams(g, crew, p)
  {
    DaysMultiply(g, Demands(g, crew), days, p);
    CrewGrams(g, crew, p);
    SameProduct(days as real, AllDaily(g, Demands(g, crew), p), DailyGrams(g, crew, p));
  }

  // ----- the lines of a plan -----

  /** What is bought in the product's unit: the grams eaten in so many days and the buffer on top. */
  ghost predicate Covers(quantity: real, product: Product, daily: real, days: int, bufferPct: real) {
    var grams := days as real * daily * (1.0 + bufferPct);
    quantity == if product.inKilograms then grams / 1000.0 else grams
  }

  /** One purchase line, where daily is what the crew eats of the product in a day. */
  ghost predicate Buys(item: Item, product: Product, quantity: real, daily: real) {
    && Nearest(quantity * 1000.0, item.requiredQty)
    && item.unitPrice == product.unitPrice && Nearest(quantity * product.unitPrice * 10000.0, item.lineTotal)
    && Nearest(daily * 100.0, item.perDayGrams)
  }

  lemma Divided(a: real, b: real)
    ensures (a / 1000.0) * b == a * b / 1000.0
  {
  }

  lemma QuantityCovers(product: Product, grams: real, days: int, daily: real, bufferPct: real)
    requires grams == days as real * daily
    ensures Covers(Quantity(product, grams, bufferPct), product, daily, days, bufferPct)
  {
    if product.inKilograms { Divided(grams, 1.0 + bufferPct); }
  }

  lemma DayOf(days: int, daily: real, grams: real)
    requires days != 0 && grams == days as real * daily
    ensures grams / days as real == daily
  {
  }

  lemma LineBuys(p: Id, product: Product, grams: real, bufferPct: real, days: int, daily: real)
    requires days != 0 && grams / days as real == daily
    ensures Buys(ItemOf(p, product, grams, bufferPct, days), product, Quantity(product, grams, bufferPct), daily)
  {
  }

  lemma ItemAt(g: Galley, crew: seq<Entry>, days: int, bufferPct: real, plan: Plan, i: nat)
    requires Known(g, crew) && days != 0 && IsPlan(g, crew, days, bufferPct, plan) && i < |plan.items|
    ensures plan.items[i].product in g.products
    ensures var p := plan.items[i].product;
            plan.items[i] == ItemOf(p, g.products[p], Need(g, Demands(g, crew), days, p), bufferPct, days)
  {
    assert ItemProducts(plan.items)[i] == plan.items[i].product;
  }

  lemma LineCovers(p: Id, product: Product, grams: real, bufferPct: real, days: int, daily: real)
    returns (quantity: real)
    requires days != 0 && grams == days as real * daily
    ensures Covers(quantity, product, daily, days, bufferPct)
    ensures Buys(ItemOf(p, product, grams, bufferPct, days), product, quantity, daily)
  {
    quantity := Quantity(product, grams, bufferPct);
    QuantityCovers(product, grams, days, daily, bufferPct);
    DayOf(days, daily, grams);
    LineBuys(p, product, grams, bufferPct, days, daily);
  }

  lemma ItemBuys(g: Galley, crew: seq<Entry>, days: int, bufferPct: real, p: Id) returns (quantity: real)
    requires Known(g, crew) && days != 0 && p in g.products
    ensures Covers(quantity, g.products[p], DailyGrams(g, crew, p), days, bufferPct)
    ensures Buys(ItemOf(p, g.products[p], Need(g, Demands(g, crew), days, p), bufferPct, days), g.products[p],
                 quantity, DailyGrams(g, crew, p))
  {
    NeedExactly(g, crew, days, p);
    quantity := LineCovers(p, g.products[p], Need(g, Demands(g, crew), days, p), bufferPct, days,
                           DailyGrams(g, crew, p));
  }

  /** Every line buys what the crew eats in so many days and the buffer on top; the grams per day are those of the
     crew, whatever the days. */
  lemma PlanBuysWhatIsEaten(g: Galley, crew: seq<Entry>, days: int, bufferPct: real, plan: Plan, i: nat)
    returns (quantity: real)
    requires Known(g, crew) && days != 0 && IsPlan(g, crew, days, bufferPct, plan) && i < |plan.items|
    ensures var p := plan.items[i].product;
            && p in g.products && Covers(quantity, g.products[p], DailyGrams(g, crew, p), days, bufferPct)
            && Buys(plan.items[i], g.products[p], quantity, DailyGrams(g, crew, p))
  {
    ItemAt(g, crew, days, bufferPct, plan, i);
    quantity := ItemBuys(g, crew, days, bufferPct, plan.items[i].product);
  }

  // ----- the head of a plan -----

  /** Heads times target, over the entries. */
  ghost function Kcal(g: Galley, crew: seq<Entry>): int
    requires Known(g, crew)
  {
    if crew == [] then 0 else Eats(g, crew[0]) + Kcal(g, crew[1..])
  }

  lemma {:induction false} DailyKcalSnoc(g: Galley, crew: seq<Entry>)
    requires Known(g, crew)
    ensures DailyKcal(g, crew) == Kcal(g, crew)
  {
    if |crew| > 1 {
      var n := |crew| - 1;
      DailyKcalSnoc(g, crew[..n]);
      KcalSnoc(g, crew[..n], crew[n]);
      assert crew[..n] + [crew[n]] == crew;
    } else if |crew| == 1 {
      assert crew[..0] == [] && crew[1..] == [];
    }
  }

  lemma {:induction false} KcalSnoc(g: Galley, crew: seq<Entry>, e: Entry)
    requires Known(g, crew) && e.code in g.targets
    ensures Known(g, crew + [e]) && Kcal(g, crew + [e]) == Kcal(g, crew) + Eats(g, e)
  {
    if crew == [] {
      assert ([] + [e])[1..] == [];
    } else {
      KcalSnoc(g, crew[1..], e);
      assert (crew + [e])[1..] == crew[1..] + [e];
    }
  }

  lemma Hundredfold(daily: int, days: int)
    ensures RoundHalfEven((daily * days) as real * 100.0) == 100 * (daily * days)
  {
    RoundWhole(100 * (daily * days));
    assert (daily * days) as real * 100.0 == (100 * (daily * days)) as real;
  }

  /** The plan's calories are exact: so many days of the crew's. */
  lemma PlanKcal(g: Galley, crew: seq<Entry>, days: int, bufferPct: real, plan: Plan)
    requires Known(g, crew) && days != 0 && IsPlan(g, crew, days, bufferPct, plan)
    ensures plan.totalKcal == 100 * (Kcal(g, crew) * days)
  {
    DailyKcalSnoc(g, crew);
    Hundredfold(Kcal(g, crew), days);
  }

  lemma Together(t: int, a: int, b: int)
    ensures b * t + t * a == t * (a + b)
  {
  }

  /** Where every nationality has the same target, the crew count times the target is what the crew eats. */
  lemma {:induction false} SameTargets(g: Galley, crew: seq<Entry>, target: int)
    requires Known(g, crew) && forall i :: 0 <= i < |crew| ==> g.targets[crew[i].code] == target
    ensures Kcal(g, crew) == target * HeadCount(crew)
  {
    if crew != [] {
      var front, last := crew[..|crew| - 1], crew[|crew| - 1];
      SameTargets(g, front, target);
      KcalSnoc(g, front, last);
      assert front + [last] == crew;
      Together(target, HeadCount(front), last.heads);
    }
  }
}
