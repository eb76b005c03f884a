/**
 * What `gatherIngridients` (input/processor.go) builds: a breadth-first walk
 * of the ingredient graph from one recipe. Every craftable ingredient gets
 * one entry, numbered by discovery, and its recipe is queued when it is
 * first seen. Every base ingredient gets one entry per occurrence. Counts
 * are the raw quantities of the bills: nothing is multiplied along a path.
 */
module Planning {
  import opened Catalog
  import opened Wrappers
  import opened Pricing

  /** `itemAndCount`, with the ID of the item it names. Base entries carry
      layer -1. */
  datatype Entry = Entry(id: string, name: string, count: int, layer: int)

  /** What is bought and what is crafted, crafts in ascending layer. */
  datatype Plan = Plan(baseItems: seq<Entry>, crafts: seq<Entry>)

  /** The items some recipe of the bucket produces. */
  ghost function ProducedIds(bucket: Bucket): set<string>
  {
    set k | k in bucket :: bucket[k].itemId
  }

  /** The quantity of `id` in a bill, 0 when it is not an ingredient. */
  function Quantity(bill: map<string, int>, id: string): int
  {
    if id in bill then bill[id] else 0
  }

  ghost predicate AllIn(bucket: Bucket, processed: seq<string>)
  {
    forall j :: 0 <= j < |processed| ==> processed[j] in bucket
  }

  /** The raw quantities of `id` over the bills of the processed recipes. */
  ghost function RawTotal(bucket: Bucket, processed: seq<string>, id: string): int
    requires AllIn(bucket, processed)
  {
    if processed == [] then 0
    else RawTotal(bucket, processed[..|processed| - 1], id) + Quantity(bucket[processed[|processed| - 1]].items, id)
  }

  /** The base-item entries one bill contributes, restricted to `keys`. */
  ghost function BaseEntries(bucket: Bucket, items: ItemMap, bill: map<string, int>, keys: set<string>): set<Entry>
    requires forall ing :: ing in bill ==> ing in items
  {
    set ing | ing in keys && ing in bill && !HasProducer(bucket, ing) :: Entry(ing, items[ing].name, bill[ing], -1)
  }

  /** All base-item entries of the processed recipes, one per occurrence. */
  ghost function BaseOccurrences(bucket: Bucket, items: ItemMap, processed: seq<string>): multiset<Entry>
    requires WellFormed(bucket, items) && AllIn(bucket, processed)
  {
    if processed == [] then multiset{}
    else
      var bill := bucket[processed[|processed| - 1]].items;
      BaseOccurrences(bucket, items, processed[..|processed| - 1]) + multiset(BaseEntries(bucket, items, bill, bill.Keys))
  }

  /** Item `id` is an ingredient of one of the first `i` queued recipes. */
  ghost predicate MetBefore(bucket: Bucket, queued: seq<string>, i: int, id: string)
    requires AllIn(bucket, queued)
  {
    exists j :: 0 <= j < i && j < |queued| && id in bucket[queued[j]].items
  }

  /** The queue is first in, first out: a craft listed before a craft met in
      the bill of the `p`-th recipe taken off the queue was itself met in
      one of the bills up to and including that one. */
  ghost predicate FirstMetOrder(bucket: Bucket, crafts: seq<Entry>, processed: seq<string>)
    requires AllIn(bucket, processed)
  {
    forall i, j, p :: 1 <= i < j < |crafts| && 0 <= p < |processed| && crafts[j].id in bucket[processed[p]].items ==>
      MetBefore(bucket, processed, p + 1, crafts[i].id)
  }

  /** A depth-first order breaks FirstMetOrder. Recipe R0 (item x0) needs
      a and b, Ra (item a) needs c, and Rb and Rc need nothing. The queue
      meets b in R0's bill, before it takes Ra, so c cannot come before b. */
  lemma DepthFirstOrderRejected(bucket: Bucket)
    requires bucket == map[
      "R0" := Recipe("x0", "R0", "x0", 1, 1, map["a" := 1, "b" := 1]),
      "Ra" := Recipe("a", "Ra", "a", 1, 1, map["c" := 1]),
      "Rb" := Recipe("b", "Rb", "b", 1, 1, map[]),
      "Rc" := Recipe("c", "Rc", "c", 1, 1, map[])]
    ensures !FirstMetOrder(bucket, [Entry("x0", "x0", 1, 0), Entry("a", "a", 1, 1), Entry("c", "c", 1, 2), Entry("b", "b", 1, 3)],
                           ["R0", "Ra", "Rc", "Rb"])
  {
    var crafts := [Entry("x0", "x0", 1, 0), Entry("a", "a", 1, 1), Entry("c", "c", 1, 2), Entry("b", "b", 1, 3)];
    var processed := ["R0", "Ra", "Rc", "Rb"];
    assert crafts[3].id in bucket[processed[0]].items;
    assert !MetBefore(bucket, processed, 1, crafts[2].id);
  }

  /** The craft entry of item `id` is listed. */
  ghost predicate Crafted(plan: Plan, id: string)
  {
    exists i :: 0 <= i < |plan.crafts| && plan.crafts[i].id == id
  }

  /** `plan` is what gatherIngridients returns for recipe `recId` when the
      recipes it takes off its queue are `processed`, in that order. */
  ghost predicate GatherSpec(bucket: Bucket, items: ItemMap, recId: string, plan: Plan, processed: seq<string>)
    requires WellFormed(bucket, items) && recId in bucket
  {
    var crafts := plan.crafts;
    // one queue pop per craft entry, starting with the root recipe
    && |processed| == |crafts| >= 1
    && processed[0] == recId
    && AllIn(bucket, processed)
    // the root is the item of the recipe, at layer 0
    && crafts[0].id == bucket[recId].itemId
    // layers number the crafts by discovery, so they ascend
    && (forall i :: 0 <= i < |crafts| ==> crafts[i].layer == i)
    && (forall i :: 0 <= i < |crafts| ==> crafts[i].id in items && crafts[i].name == items[crafts[i].id].name)
    && (forall i, j :: 0 <= i < j < |crafts| ==> crafts[i].id != crafts[j].id)
    // every later craft was met in an earlier recipe, and its recipe is RecipeByItem's pick
    && (forall i :: 1 <= i < |crafts| ==> MetBefore(bucket, processed, i, crafts[i].id))
    && (forall i :: 1 <= i < |crafts| ==> IsRecipeChoice(bucket, crafts[i].id, Some(bucket[processed[i]])))
    // breadth first: crafts come in the order the queue first meets them
    && FirstMetOrder(bucket, crafts, processed)
    // every craftable ingredient met is listed
    && (forall j, ing :: 0 <= j < |processed| && ing in bucket[processed[j]].items && HasProducer(bucket, ing) ==> Crafted(plan, ing))
    // raw counts: the root's 1 plus the quantities in the bills met
    && (forall i :: 0 <= i < |crafts| ==> crafts[i].count == (if i == 0 then 1 else 0) + RawTotal(bucket, processed, crafts[i].id))
    // one base entry per occurrence, with its raw quantity
    && multiset(plan.baseItems) == BaseOccurrences(bucket, items, processed)
  }

  /** `plan` is a possible result of gatherIngridients for `recId`. */
  ghost predicate IsGatherResult(bucket: Bucket, items: ItemMap, recId: string, plan: Plan)
  {
    && WellFormed(bucket, items)
    && recId in bucket
    && exists processed :: GatherSpec(bucket, items, recId, plan, processed)
  }

  /** Distinct elements of a sequence number as many as the sequence. */
  lemma {:induction false} DistinctCardinality(s: seq<string>)
    requires forall i, j :: 0 <= i < j < |s| ==> s[i] != s[j]
    ensures |set i | 0 <= i < |s| :: s[i]| == |s|
  {
    if s != [] {
      var init := s[..|s| - 1];
      DistinctCardinality(init);
      var a := set i | 0 <= i < |init| :: init[i];
      var b := set i | 0 <= i < |s| :: s[i];
      assert b == a + {s[|s| - 1]};
      assert s[|s| - 1] !in a;
    }
  }

  /** Distinct elements that, but for the first, all come from `pool` are at
      most one more than the pool. */
  lemma DistinctFromPool(ids: seq<string>, pool: set<string>)
    requires forall i, j :: 0 <= i < j < |ids| ==> ids[i] != ids[j]
    requires forall i :: 0 <= i < |ids| ==> ids[i] in pool
    ensures |ids| <= |pool|
  {
    DistinctCardinality(ids);
    var all := set i | 0 <= i < |ids| :: ids[i];
    assert all <= pool;
    SubsetCardinality(all, pool);
  }

  lemma SubsetCardinality(a: set<string>, b: set<string>)
    requires a <= b
    ensures |a| <= |b|
  {
    assert b == a + (b - a);
  }

  /** The walk pops at most as many recipes as there are craftable items,
      even when the ingredient graph has cycles. */
  lemma GatherIsBounded(bucket: Bucket, items: ItemMap, recId: string, plan: Plan, processed: seq<string>)
    requires WellFormed(bucket, items) && recId in bucket
    requires GatherSpec(bucket, items, recId, plan, processed)
    ensures |processed| == |plan.crafts| <= |ProducedIds(bucket)|
  {
    var crafts := plan.crafts;
    var ids := seq(|crafts|, i requires 0 <= i < |crafts| => crafts[i].id);
    forall i | 0 <= i < |ids|
      ensures ids[i] in ProducedIds(bucket)
    {
      if i == 0 {
        assert bucket[recId].itemId == ids[0];
      } else {
        var r := bucket[processed[i]];
        assert IsRecipeChoice(bucket, crafts[i].id, Some(r));
        var k :| k in bucket && bucket[k] == r;
        assert bucket[k].itemId == ids[i];
      }
    }
    DistinctFromPool(ids, ProducedIds(bucket));
  }
}
