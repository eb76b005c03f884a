/**
 * What `priceByRecipe` (input/processor.go) computes: the cost of one
 * execution of a recipe, the sum over its ingredients of quantity times the
 * ingredient's price. A craftable ingredient is priced by the recipe
 * RecipeByItem picks for it in the same craft type, a base ingredient by its
 * item's price. Nothing is divided by the recipe's Count.
 *
 * The Go loop visits the ingredient map in an unspecified order, and each
 * RecipeByItem call may break ties differently, so the specification is a
 * relation: IsBatchPrice holds of every price some run can return.
 */
module Pricing {
  import opened Cost
  import opened Catalog
  import opened Wrappers

  /** Recipe `sub` produces an ingredient of recipe `k`. */
  ghost predicate Feeds(bucket: Bucket, sub: string, k: string)
  {
    sub in bucket && k in bucket && bucket[sub].itemId in bucket[k].items
  }

  /** Recipe `sub` is one RecipeByItem may pick for an ingredient of `k`. */
  ghost predicate Picked(bucket: Bucket, sub: string, k: string)
  {
    Feeds(bucket, sub, k) && IsRecipeChoice(bucket, bucket[sub].itemId, Some(bucket[sub]))
  }

  /** `rank` strictly decreases from a recipe to every recipe RecipeByItem
      may pick for one of its ingredients: priceByRecipe cannot recurse
      forever, whatever the picks. Producers RecipeByItem never returns
      (a Count above another producer's) may close cycles. */
  ghost predicate RankedBy(bucket: Bucket, rank: map<string, nat>)
  {
    && (forall k :: k in bucket ==> k in rank)
    && (forall sub, k :: Picked(bucket, sub, k) ==> rank[sub] < rank[k])
  }

  ghost predicate Acyclic(bucket: Bucket)
  {
    exists rank :: RankedBy(bucket, rank)
  }

  /** A producer cycle that RecipeByItem never follows is allowed. R2 makes
      x from a and A makes a from x, but R1 also makes x with Count 1, so
      RecipeByItem never returns R2 and priceByRecipe stops. */
  lemma UnpickedCycleAccepted(bucket: Bucket)
    requires bucket == map[
      "A" := Recipe("A", "A", "a", 1, 1, map["x" := 1]),
      "R1" := Recipe("R1", "R1", "x", 1, 1, map["b" := 1]),
      "R2" := Recipe("R2", "R2", "x", 1, 2, map["a" := 1])]
    ensures Feeds(bucket, "R2", "A") && Feeds(bucket, "A", "R2")
    ensures Acyclic(bucket)
  {
    var rank: map<string, nat> := map["A" := 1, "R1" := 0, "R2" := 2];
    assert bucket["R1"].itemId == "x" && bucket["R1"].count == 1;
    assert !IsRecipeChoice(bucket, "x", Some(bucket["R2"]));
    forall sub, k | Picked(bucket, sub, k)
      ensures rank[sub] < rank[k]
    {
      assert sub in bucket && k in bucket;
    }
    assert RankedBy(bucket, rank);
  }

  /** The shape of a catalog the processor can work on without dereferencing
      nil: recipes are stored under their own ID, items under
      theirs, and every produced item and every ingredient is an item. */
  ghost predicate WellFormed(bucket: Bucket, items: ItemMap)
  {
    && (forall k :: k in bucket ==> bucket[k].id == k)
    && (forall k :: k in bucket ==> bucket[k].itemId in items)
    && (forall k, ing :: k in bucket && ing in bucket[k].items ==> ing in items)
    && (forall id :: id in items ==> items[id].id == id)
  }

  /** A recipe RecipeByItem returns is the one stored under its ID. */
  lemma ChoiceIsStored(bucket: Bucket, items: ItemMap, itemId: string, r: Recipe)
    requires WellFormed(bucket, items)
    requires IsRecipeChoice(bucket, itemId, Some(r))
    ensures r.id in bucket && bucket[r.id] == r
  {
    var k :| k in bucket && bucket[k] == r;
  }

  /** One ingredient of the loop: its quantity and the price of one unit. */
  datatype Term = Term(ingredient: string, count: int, unit: TheInt)

  /** `terms` lists every ingredient of the bill once, with its quantity. */
  ghost predicate IsBill(bill: map<string, int>, terms: seq<Term>)
  {
    && (forall i :: 0 <= i < |terms| ==> terms[i].ingredient in bill && terms[i].count == bill[terms[i].ingredient])
    && (forall i, j :: 0 <= i < j < |terms| ==> terms[i].ingredient != terms[j].ingredient)
    && (forall ing :: ing in bill ==> exists i :: 0 <= i < |terms| && terms[i].ingredient == ing)
  }

  /** The loop of priceByRecipe: starting from `TheInt{Value: 0}`, each
      ingredient adds `unit.Mul(count)` with Plus. */
  function Accumulate(terms: seq<Term>): TheInt
  {
    if terms == [] then Zero
    else
      var last := terms[|terms| - 1];
      Plus(Accumulate(terms[..|terms| - 1]), Mul(last.unit, last.count))
  }

  /** Sum of quantity times unit value. */
  function SumOfProducts(terms: seq<Term>): int
  {
    if terms == [] then 0 else terms[0].unit.value * terms[0].count + SumOfProducts(terms[1..])
  }

  /** The reasons of every unit price, in order. */
  function AllReasons(terms: seq<Term>): seq<string>
  {
    if terms == [] then [] else terms[0].unit.naReasons + AllReasons(terms[1..])
  }

  lemma {:induction false} SumOfProductsSnoc(terms: seq<Term>, t: Term)
    ensures SumOfProducts(terms + [t]) == SumOfProducts(terms) + t.unit.value * t.count
    ensures AllReasons(terms + [t]) == AllReasons(terms) + t.unit.naReasons
  {
    if terms != [] {
      assert (terms + [t])[1..] == terms[1..] + [t];
      SumOfProductsSnoc(terms[1..], t);
    }
  }

  /** The accumulated value is the sum of quantity times unit value, and the
      accumulated reasons are those of every unit price, each once, whatever
      its quantity. */
  lemma {:induction false} AccumulateIsSum(terms: seq<Term>)
    ensures Accumulate(terms).value == SumOfProducts(terms)
    ensures Accumulate(terms).naReasons == AllReasons(terms)
  {
    if terms != [] {
      var init, last := terms[..|terms| - 1], terms[|terms| - 1];
      var acc := Accumulate(init);
      AccumulateIsSum(init);
      assert terms == init + [last];
      SumOfProductsSnoc(init, last);
      assert Accumulate(terms) == TheInt(acc.value + last.unit.value * last.count, acc.naReasons + last.unit.naReasons);
    }
  }

  /** The reasons are empty exactly when every unit price has none. */
  lemma {:induction false} AllReasonsEmpty(terms: seq<Term>)
    ensures AllReasons(terms) == [] <==> forall i :: 0 <= i < |terms| ==> terms[i].unit.naReasons == []
  {
    if terms != [] {
      AllReasonsEmpty(terms[1..]);
      assert forall i :: 1 <= i < |terms| ==> terms[i] == terms[1..][i - 1];
    }
  }

  /** The reasons of one unit price are all among the accumulated reasons. */
  lemma {:induction false} AllReasonsContains(terms: seq<Term>, i: nat)
    requires i < |terms|
    ensures multiset(terms[i].unit.naReasons) <= multiset(AllReasons(terms))
  {
    if i > 0 {
      AllReasonsContains(terms[1..], i - 1);
    }
  }

  /** `p` is a price priceByRecipe can return for recipe `id`. */
  ghost predicate IsBatchPrice(bucket: Bucket, items: ItemMap, rank: map<string, nat>, id: string, p: TheInt)
    requires WellFormed(bucket, items) && RankedBy(bucket, rank) && id in bucket
    decreases rank[id], 2
  {
    exists terms: seq<Term> :: IsPricedBill(bucket, items, rank, id, terms) && p == Accumulate(terms)
  }

  /** `terms` is the bill of recipe `id` in some visiting order, each
      ingredient with a unit price the loop can use for it. */
  ghost predicate IsPricedBill(bucket: Bucket, items: ItemMap, rank: map<string, nat>, id: string, terms: seq<Term>)
    requires WellFormed(bucket, items) && RankedBy(bucket, rank) && id in bucket
    decreases rank[id], 1
  {
    && IsBill(bucket[id].items, terms)
    && (forall i :: 0 <= i < |terms| ==> IsUnitPrice(bucket, items, rank, id, terms[i].ingredient, terms[i].unit))
  }

  /** `u` is a price the loop of recipe `parent` can use for ingredient
      `ing`: the item's own price when no recipe of the bucket produces it,
      otherwise a price of the recipe RecipeByItem may pick for it. */
  ghost predicate IsUnitPrice(bucket: Bucket, items: ItemMap, rank: map<string, nat>, parent: string, ing: string, u: TheInt)
    requires WellFormed(bucket, items) && RankedBy(bucket, rank) && parent in bucket && ing in bucket[parent].items
    decreases rank[parent], 0
  {
    if !HasProducer(bucket, ing) then u == items[ing].price
    else
      exists sub ::
        && Feeds(bucket, sub, parent)
        && IsRecipeChoice(bucket, ing, Some(bucket[sub]))
        && IsBatchPrice(bucket, items, rank, sub, u)
  }

  /** The bookkeeping of the loop of priceByRecipe part way: `terms` lists
      the ingredients of `bill` no longer in `rest`, each once, with its
      quantity. */
  ghost predicate Covers(bill: map<string, int>, terms: seq<Term>, rest: set<string>)
  {
    && rest <= bill.Keys
    && (forall i :: 0 <= i < |terms| ==> terms[i].ingredient in bill && terms[i].ingredient !in rest)
    && (forall i :: 0 <= i < |terms| ==> terms[i].count == bill[terms[i].ingredient])
    && (forall i, j :: 0 <= i < j < |terms| ==> terms[i].ingredient != terms[j].ingredient)
    && (forall ing :: ing in bill && ing !in rest ==> exists i :: 0 <= i < |terms| && terms[i].ingredient == ing)
  }

  /** Taking ingredient `ing` off `rest` and listing it with its quantity
      keeps the bookkeeping. */
  lemma CoversSnoc(bill: map<string, int>, terms: seq<Term>, rest: set<string>, ing: string, u: TheInt)
    requires Covers(bill, terms, rest) && ing in rest
    ensures Covers(bill, terms + [Term(ing, bill[ing], u)], rest - {ing})
  {
    var t := Term(ing, bill[ing], u);
    forall x | x in bill && x !in rest - {ing}
      ensures exists i :: 0 <= i < |terms + [t]| && (terms + [t])[i].ingredient == x
    {
      if x == ing {
        assert (terms + [t])[|terms|].ingredient == x;
      } else {
        var i :| 0 <= i < |terms| && terms[i].ingredient == x;
        assert (terms + [t])[i].ingredient == x;
      }
    }
  }

  /** The loop of priceByRecipe part way: `terms` covers the ingredients no
      longer in `rest`, each once, with its quantity and a usable unit price. */
  ghost predicate IsPartialBill(bucket: Bucket, items: ItemMap, rank: map<string, nat>, id: string, terms: seq<Term>, rest: set<string>)
    requires WellFormed(bucket, items) && RankedBy(bucket, rank) && id in bucket
  {
    && Covers(bucket[id].items, terms, rest)
    && (forall i :: 0 <= i < |terms| ==> IsUnitPrice(bucket, items, rank, id, terms[i].ingredient, terms[i].unit))
  }

  lemma PartialBillStart(bucket: Bucket, items: ItemMap, rank: map<string, nat>, id: string)
    requires WellFormed(bucket, items) && RankedBy(bucket, rank) && id in bucket
    ensures IsPartialBill(bucket, items, rank, id, [], bucket[id].items.Keys)
  {
  }

  /** Taking one more ingredient off `rest` with a usable unit price extends
      the partial bill. */
  lemma PartialBillStep(bucket: Bucket, items: ItemMap, rank: map<string, nat>, id: string,
                        terms: seq<Term>, rest: set<string>, ing: string, u: TheInt)
    requires WellFormed(bucket, items) && RankedBy(bucket, rank) && id in bucket
    requires IsPartialBill(bucket, items, rank, id, terms, rest)
    requires ing in rest
    requires IsUnitPrice(bucket, items, rank, id, ing, u)
    ensures IsPartialBill(bucket, items, rank, id, terms + [Term(ing, bucket[id].items[ing], u)], rest - {ing})
    ensures Accumulate(terms + [Term(ing, bucket[id].items[ing], u)]) == Plus(Accumulate(terms), Mul(u, bucket[id].items[ing]))
  {
    var t := Term(ing, bucket[id].items[ing], u);
    assert (terms + [t])[..|terms|] == terms;
    CoversSnoc(bucket[id].items, terms, rest, ing, u);
    UnitPricesSnoc(bucket, items, rank, id, terms, t);
  }

  /** A usable unit price for one more ingredient keeps every unit price of
      the list usable. */
  lemma UnitPricesSnoc(bucket: Bucket, items: ItemMap, rank: map<string, nat>, id: string, terms: seq<Term>, t: Term)
    requires WellFormed(bucket, items) && RankedBy(bucket, rank) && id in bucket
    requires forall i :: 0 <= i < |terms| ==> terms[i].ingredient in bucket[id].items
    requires forall i :: 0 <= i < |terms| ==> IsUnitPrice(bucket, items, rank, id, terms[i].ingredient, terms[i].unit)
    requires t.ingredient in bucket[id].items && IsUnitPrice(bucket, items, rank, id, t.ingredient, t.unit)
    ensures forall i :: 0 <= i < |terms + [t]| ==> (terms + [t])[i].ingredient in bucket[id].items
    ensures forall i :: 0 <= i < |terms + [t]| ==> IsUnitPrice(bucket, items, rank, id, (terms + [t])[i].ingredient, (terms + [t])[i].unit)
  {
    forall i | 0 <= i < |terms + [t]|
      ensures (terms + [t])[i].ingredient in bucket[id].items
      ensures IsUnitPrice(bucket, items, rank, id, (terms + [t])[i].ingredient, (terms + [t])[i].unit)
    {
      if i < |terms| { assert (terms + [t])[i] == terms[i]; }
    }
  }

  /** With nothing left, the partial bill is a priced bill. */
  lemma PartialBillDone(bucket: Bucket, items: ItemMap, rank: map<string, nat>, id: string, terms: seq<Term>)
    requires WellFormed(bucket, items) && RankedBy(bucket, rank) && id in bucket
    requires IsPartialBill(bucket, items, rank, id, terms, {})
    ensures IsPricedBill(bucket, items, rank, id, terms)
  {
  }

  /** The unit price of a base ingredient is its item's price. */
  lemma BaseUnitPrice(bucket: Bucket, items: ItemMap, rank: map<string, nat>, id: string, ing: string)
    requires WellFormed(bucket, items) && RankedBy(bucket, rank) && id in bucket
    requires ing in bucket[id].items && IsRecipeChoice(bucket, ing, None)
    ensures IsUnitPrice(bucket, items, rank, id, ing, items[ing].price)
  {
  }

  /** The unit price of a craftable ingredient is a price of the recipe
      RecipeByItem picked for it; that recipe feeds `id`, so it ranks lower. */
  lemma CraftedUnitPrice(bucket: Bucket, items: ItemMap, rank: map<string, nat>, id: string, ing: string, r: Recipe, u: TheInt)
    requires WellFormed(bucket, items) && RankedBy(bucket, rank) && id in bucket
    requires ing in bucket[id].items && IsRecipeChoice(bucket, ing, Some(r))
    requires r.id in bucket && IsBatchPrice(bucket, items, rank, r.id, u)
    ensures IsUnitPrice(bucket, items, rank, id, ing, u)
  {
    ChoiceIsStored(bucket, items, ing, r);
    assert Picked(bucket, r.id, id);
  }

  /** The recipe RecipeByItem picks for an ingredient of `id` ranks below `id`. */
  lemma ChoiceRanksLower(bucket: Bucket, items: ItemMap, rank: map<string, nat>, id: string, ing: string, r: Recipe)
    requires WellFormed(bucket, items) && RankedBy(bucket, rank) && id in bucket
    requires ing in bucket[id].items && IsRecipeChoice(bucket, ing, Some(r))
    ensures r.id in bucket && r.id in rank && rank[r.id] < rank[id]
  {
    ChoiceIsStored(bucket, items, ing, r);
    assert Picked(bucket, r.id, id);
  }

  /** Some acyclicity witness makes `p` a price of recipe `id`. */
  ghost predicate IsRecipePrice(bucket: Bucket, items: ItemMap, id: string, p: TheInt)
  {
    && WellFormed(bucket, items)
    && id in bucket
    && exists rank :: RankedBy(bucket, rank) && IsBatchPrice(bucket, items, rank, id, p)
  }

  /** Base item `b` is reached from recipe `id` by some run: it is a base
      ingredient of `id`, or it is reached from a recipe RecipeByItem may
      pick for an ingredient of `id`. */
  ghost predicate ReachesBase(bucket: Bucket, rank: map<string, nat>, id: string, b: string)
    requires RankedBy(bucket, rank) && id in bucket
    decreases rank[id]
  {
    || (b in bucket[id].items && !HasProducer(bucket, b))
    || exists sub :: Picked(bucket, sub, id) && ReachesBase(bucket, rank, sub, b)
  }

  /** Base item `b` is reached from recipe `id` by every run, whatever
      RecipeByItem picks: it is a base ingredient of `id`, or some craftable
      ingredient of `id` leads to `b` from every recipe that may be picked
      for it. */
  ghost predicate AlwaysReachesBase(bucket: Bucket, rank: map<string, nat>, id: string, b: string)
    requires RankedBy(bucket, rank) && id in bucket
    decreases rank[id]
  {
    || (b in bucket[id].items && !HasProducer(bucket, b))
    || exists ing :: ing in bucket[id].items && HasProducer(bucket, ing) &&
         forall sub :: Picked(bucket, sub, id) && bucket[sub].itemId == ing ==> AlwaysReachesBase(bucket, rank, sub, b)
  }

  /** Every base item reached from `id` has a known price. */
  ghost predicate BasesKnownFrom(bucket: Bucket, items: ItemMap, rank: map<string, nat>, id: string)
    requires RankedBy(bucket, rank) && id in bucket
  {
    forall b :: ReachesBase(bucket, rank, id, b) ==> b in items && items[b].price.naReasons == []
  }

  /** What is reached from a picked recipe is reached from `id`. */
  lemma KnownAtPick(bucket: Bucket, items: ItemMap, rank: map<string, nat>, id: string, sub: string)
    requires RankedBy(bucket, rank) && id in bucket
    requires BasesKnownFrom(bucket, items, rank, id) && Picked(bucket, sub, id)
    ensures sub in bucket && BasesKnownFrom(bucket, items, rank, sub)
  {
    forall b | ReachesBase(bucket, rank, sub, b)
      ensures b in items && items[b].price.naReasons == []
    {
      assert ReachesBase(bucket, rank, id, b);
    }
  }

  lemma KnownAtBase(bucket: Bucket, items: ItemMap, rank: map<string, nat>, id: string, b: string)
    requires RankedBy(bucket, rank) && id in bucket
    requires BasesKnownFrom(bucket, items, rank, id) && b in bucket[id].items && !HasProducer(bucket, b)
    ensures b in items && items[b].price.naReasons == []
  {
    assert ReachesBase(bucket, rank, id, b);
  }

  /** When every base item reached from `id` has a known price, no price of
      `id` has a reason. */
  lemma {:induction false} CertainWhenBasesKnown(bucket: Bucket, items: ItemMap, rank: map<string, nat>, id: string, p: TheInt)
    requires WellFormed(bucket, items) && RankedBy(bucket, rank) && id in bucket
    requires BasesKnownFrom(bucket, items, rank, id)
    requires IsBatchPrice(bucket, items, rank, id, p)
    ensures p.naReasons == []
    decreases rank[id]
  {
    var terms: seq<Term> :| IsPricedBill(bucket, items, rank, id, terms) && p == Accumulate(terms);
    forall i | 0 <= i < |terms|
      ensures terms[i].unit.naReasons == []
    {
      var ing := terms[i].ingredient;
      assert ing in bucket[id].items;
      assert IsUnitPrice(bucket, items, rank, id, ing, terms[i].unit);
      if HasProducer(bucket, ing) {
        var sub :| && Feeds(bucket, sub, id)
                   && IsRecipeChoice(bucket, ing, Some(bucket[sub]))
                   && IsBatchPrice(bucket, items, rank, sub, terms[i].unit);
        assert Picked(bucket, sub, id);
        KnownAtPick(bucket, items, rank, id, sub);
        CertainWhenBasesKnown(bucket, items, rank, sub, terms[i].unit);
      } else {
        KnownAtBase(bucket, items, rank, id, ing);
      }
    }
    AccumulateIsSum(terms);
    AllReasonsEmpty(terms);
  }

  /** The missing-price reasons of a base item that every run reaches all
      show up in the price of the recipe. */
  lemma {:induction false} MissingBasePriceShows(bucket: Bucket, items: ItemMap, rank: map<string, nat>, id: string, p: TheInt, b: string)
    requires WellFormed(bucket, items) && RankedBy(bucket, rank) && id in bucket
    requires AlwaysReachesBase(bucket, rank, id, b)
    requires IsBatchPrice(bucket, items, rank, id, p)
    ensures b in items && multiset(items[b].price.naReasons) <= multiset(p.naReasons)
    decreases rank[id]
  {
    var terms: seq<Term> :| IsPricedBill(bucket, items, rank, id, terms) && p == Accumulate(terms);
    AccumulateIsSum(terms);
    if b in bucket[id].items && !HasProducer(bucket, b) {
      var i :| 0 <= i < |terms| && terms[i].ingredient == b;
      assert IsUnitPrice(bucket, items, rank, id, b, terms[i].unit);
      AllReasonsContains(terms, i);
    } else {
      var ing :| ing in bucket[id].items && HasProducer(bucket, ing) &&
        forall sub :: Picked(bucket, sub, id) && bucket[sub].itemId == ing ==> AlwaysReachesBase(bucket, rank, sub, b);
      var i :| 0 <= i < |terms| && terms[i].ingredient == ing;
      var u := terms[i].unit;
      assert IsUnitPrice(bucket, items, rank, id, ing, u);
      var sub :| && Feeds(bucket, sub, id)
                 && IsRecipeChoice(bucket, ing, Some(bucket[sub]))
                 && IsBatchPrice(bucket, items, rank, sub, u);
      assert Picked(bucket, sub, id) && bucket[sub].itemId == ing;
      MissingBasePriceShows(bucket, items, rank, sub, u, b);
      AllReasonsContains(terms, i);
    }
  }

  /** RecipeByItem has one possible pick for every item: no ties. */
  ghost predicate UniquePicks(bucket: Bucket)
  {
    forall s, t ::
      (&& s in bucket && t in bucket && bucket[s].itemId == bucket[t].itemId
       && IsRecipeChoice(bucket, bucket[s].itemId, Some(bucket[s]))
       && IsRecipeChoice(bucket, bucket[t].itemId, Some(bucket[t])))
      ==> s == t
  }

  /** Without ties every run reaches the same base items. */
  lemma {:induction false} ReachedAlwaysWhenUnique(bucket: Bucket, rank: map<string, nat>, id: string, b: string)
    requires RankedBy(bucket, rank) && id in bucket && UniquePicks(bucket)
    requires ReachesBase(bucket, rank, id, b)
    ensures AlwaysReachesBase(bucket, rank, id, b)
    decreases rank[id]
  {
    if !(b in bucket[id].items && !HasProducer(bucket, b)) {
      var sub :| Picked(bucket, sub, id) && ReachesBase(bucket, rank, sub, b);
      ReachedAlwaysWhenUnique(bucket, rank, sub, b);
      var ing := bucket[sub].itemId;
      assert ing in bucket[id].items && HasProducer(bucket, ing);
      forall sub' | Picked(bucket, sub', id) && bucket[sub'].itemId == ing
        ensures AlwaysReachesBase(bucket, rank, sub', b)
      {
        assert sub' == sub;
      }
    }
  }

  /** Without ties, a price of recipe `id` has no reasons exactly when every
      base item reached from `id` has a known price. */
  lemma CertainIffBasesKnown(bucket: Bucket, items: ItemMap, rank: map<string, nat>, id: string, p: TheInt)
    requires WellFormed(bucket, items) && RankedBy(bucket, rank) && id in bucket && UniquePicks(bucket)
    requires IsBatchPrice(bucket, items, rank, id, p)
    ensures p.naReasons == [] <==> BasesKnownFrom(bucket, items, rank, id)
  {
    if BasesKnownFrom(bucket, items, rank, id) {
      CertainWhenBasesKnown(bucket, items, rank, id, p);
    }
    if p.naReasons == [] {
      forall b | ReachesBase(bucket, rank, id, b)
        ensures b in items && items[b].price.naReasons == []
      {
        ReachedAlwaysWhenUnique(bucket, rank, id, b);
        MissingBasePriceShows(bucket, items, rank, id, p, b);
      }
    }
  }

  /** A recipe with an empty bill costs the empty-reason zero. */
  lemma EmptyBillCosts(bucket: Bucket, items: ItemMap, rank: map<string, nat>, id: string)
    requires WellFormed(bucket, items) && RankedBy(bucket, rank) && id in bucket
    requires bucket[id].items == map[]
    ensures IsBatchPrice(bucket, items, rank, id, Zero)
  {
    assert IsPricedBill(bucket, items, rank, id, []);
  }

  /** A recipe needing one unit of one craftable ingredient costs what a
      recipe picked for that ingredient costs. */
  lemma SingleCraftCosts(bucket: Bucket, items: ItemMap, rank: map<string, nat>, id: string, sub: string, u: TheInt)
    requires WellFormed(bucket, items) && RankedBy(bucket, rank) && id in bucket
    requires Picked(bucket, sub, id) && bucket[id].items == map[bucket[sub].itemId := 1]
    requires IsBatchPrice(bucket, items, rank, sub, u)
    ensures IsBatchPrice(bucket, items, rank, id, Plus(Zero, Mul(u, 1)))
  {
    var terms := [Term(bucket[sub].itemId, 1, u)];
    assert IsUnitPrice(bucket, items, rank, id, terms[0].ingredient, u);
    assert IsPricedBill(bucket, items, rank, id, terms);
    assert terms[..0] == [];
    assert Accumulate(terms) == Plus(Zero, Mul(u, 1));
  }

  /** The catalog of TiedPickHidesBase is well formed, and only b's price
      has a reason. */
  lemma TiedCatalogWellFormed(bucket: Bucket, items: ItemMap)
    requires bucket == map[
      "R0" := Recipe("R0", "R0", "z", 1, 1, map["y" := 1]),
      "P" := Recipe("P", "P", "y", 1, 1, map["b" := 1]),
      "Q" := Recipe("Q", "Q", "y", 1, 1, map[])]
    requires items == map[
      "z" := Item("z", "z", Zero), "y" := Item("y", "y", Zero), "b" := Item("b", "b", NewInt(0, "b"))]
    ensures WellFormed(bucket, items)
    ensures "b" in items && items["b"].price.naReasons == ["b"]
  {
  }

  /** In the bucket of TiedPickHidesBase, P and Q are both picks for the
      ingredient y of R0, b has no producer, and `rank` ranks the picks. */
  lemma TiedBucketPicks(bucket: Bucket, rank: map<string, nat>)
    requires bucket == map[
      "R0" := Recipe("R0", "R0", "z", 1, 1, map["y" := 1]),
      "P" := Recipe("P", "P", "y", 1, 1, map["b" := 1]),
      "Q" := Recipe("Q", "Q", "y", 1, 1, map[])]
    requires rank == map["R0" := 1, "P" := 0, "Q" := 0]
    ensures RankedBy(bucket, rank)
    ensures Picked(bucket, "P", "R0") && Picked(bucket, "Q", "R0")
    ensures "b" in bucket["P"].items && !HasProducer(bucket, "b")
    ensures bucket["R0"].items == map[bucket["Q"].itemId := 1] && bucket["Q"].items == map[]
  {
    assert !HasProducer(bucket, "b");
    forall sub, k | Picked(bucket, sub, k)
      ensures rank[sub] < rank[k]
    {
      assert sub in bucket && k in bucket;
    }
  }

  /** Without UniquePicks the converse of CertainWhenBasesKnown fails. P and
      Q both make y with Count 1, so RecipeByItem may return either; P needs
      b, whose price is missing, and Q needs nothing. A run that picks Q
      prices R0 with no reasons although b is reached from R0 through P. */
  lemma TiedPickHidesBase(bucket: Bucket, items: ItemMap, rank: map<string, nat>)
    requires bucket == map[
      "R0" := Recipe("R0", "R0", "z", 1, 1, map["y" := 1]),
      "P" := Recipe("P", "P", "y", 1, 1, map["b" := 1]),
      "Q" := Recipe("Q", "Q", "y", 1, 1, map[])]
    requires items == map[
      "z" := Item("z", "z", Zero), "y" := Item("y", "y", Zero), "b" := Item("b", "b", NewInt(0, "b"))]
    requires rank == map["R0" := 1, "P" := 0, "Q" := 0]
    ensures WellFormed(bucket, items) && RankedBy(bucket, rank)
    ensures ReachesBase(bucket, rank, "R0", "b") && items["b"].price.naReasons != []
    ensures IsBatchPrice(bucket, items, rank, "R0", Zero)
  {
    TiedCatalogWellFormed(bucket, items);
    TiedBucketPicks(bucket, rank);
    assert ReachesBase(bucket, rank, "P", "b");
    EmptyBillCosts(bucket, items, rank, "Q");
    SingleCraftCosts(bucket, items, rank, "R0", "Q", Zero);
    assert Plus(Zero, Mul(Zero, 1)) == Zero;
  }
}
