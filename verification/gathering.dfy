/**
 * The loop state of `gatherIngridients` (input/processor.go) and how each
 * step of its loops keeps it. The walk ends in a Planning.GatherSpec result.
 */
module Gathering {
  import opened Catalog
  import opened Wrappers
  import opened Pricing
  import opened Planning

  /** The walk so far. `queued[i]` is the recipe queued for `crafts[i]`;
      `processed` is the prefix of `queued` taken off the queue and
      finished; `seen` holds the ingredients of the next queued recipe
      visited so far; `index` maps an item ID to its craft entry;
      `origins[i]` is the position in the queue of the bill in which entry
      `i` was first met. */
  datatype Walk = Walk(crafts: seq<Entry>, index: map<string, nat>, queued: seq<string>,
                       processed: seq<string>, seen: set<string>, baseItems: seq<Entry>,
                       origins: seq<nat>)

  /** The bill being walked: that of the next queued recipe, if any. */
  ghost function CurrentBill(bucket: Bucket, w: Walk): map<string, int>
    requires AllIn(bucket, w.queued) && |w.processed| <= |w.queued|
  {
    if |w.processed| < |w.queued| then bucket[w.queued[|w.processed|]].items else map[]
  }

  /** The queue: one recipe per craft entry, the root's first, and the
      processed ones a prefix. */
  ghost predicate WalkQueue(bucket: Bucket, recId: string, w: Walk)
  {
    && |w.queued| == |w.crafts| >= 1
    && w.queued[0] == recId
    && AllIn(bucket, w.queued)
    && |w.processed| <= |w.queued|
    && w.processed == w.queued[..|w.processed|]
    && AllIn(bucket, w.processed)
    && w.seen <= CurrentBill(bucket, w).Keys
  }

  /** The craft entries: the root first, layers by position, distinct items
      with their names. */
  ghost predicate WalkEntries(bucket: Bucket, items: ItemMap, recId: string, crafts: seq<Entry>)
    requires recId in bucket
  {
    && |crafts| >= 1
    && crafts[0].id == bucket[recId].itemId
    && (forall i :: 0 <= i < |crafts| ==> crafts[i].layer == i)
    && (forall i :: 0 <= i < |crafts| ==> crafts[i].id in items && crafts[i].name == items[crafts[i].id].name)
    && (forall i, j :: 0 <= i < j < |crafts| ==> crafts[i].id != crafts[j].id)
  }

  /** `index` maps each listed item to its entry. */
  ghost predicate WalkIndex(crafts: seq<Entry>, index: map<string, nat>)
  {
    && (forall i :: 0 <= i < |crafts| ==> crafts[i].id in index && index[crafts[i].id] == i)
    && (forall id :: id in index ==> index[id] < |crafts| && crafts[index[id]].id == id)
  }

  /** Every later entry was met in the bill of an earlier queued recipe, and
      its queued recipe is RecipeByItem's pick for it. */
  ghost predicate WalkOrigins(bucket: Bucket, crafts: seq<Entry>, queued: seq<string>)
    requires |queued| == |crafts| && AllIn(bucket, queued)
  {
    && (forall i :: 1 <= i < |crafts| ==> MetBefore(bucket, queued, i, crafts[i].id))
    && (forall i :: 1 <= i < |crafts| ==> IsRecipeChoice(bucket, crafts[i].id, Some(bucket[queued[i]])))
  }

  /** Every craftable ingredient met so far has a craft entry. */
  ghost predicate WalkClosed(bucket: Bucket, w: Walk)
    requires AllIn(bucket, w.processed)
  {
    && (forall j, ing :: 0 <= j < |w.processed| && ing in bucket[w.processed[j]].items && HasProducer(bucket, ing) ==> ing in w.index)
    && (forall ing :: ing in w.seen && HasProducer(bucket, ing) ==> ing in w.index)
  }

  /** The count of entry `i`, for item `id`, so far. */
  ghost function CountSoFar(bucket: Bucket, w: Walk, i: nat, id: string): int
    requires AllIn(bucket, w.queued) && |w.processed| <= |w.queued| && AllIn(bucket, w.processed)
  {
    (if i == 0 then 1 else 0) + RawTotal(bucket, w.processed, id)
    + (if id in w.seen then Quantity(CurrentBill(bucket, w), id) else 0)
  }

  ghost predicate WalkCounts(bucket: Bucket, w: Walk)
    requires AllIn(bucket, w.queued) && |w.processed| <= |w.queued| && AllIn(bucket, w.processed)
  {
    forall i :: 0 <= i < |w.crafts| ==> w.crafts[i].count == CountSoFar(bucket, w, i, w.crafts[i].id)
  }

  ghost predicate WalkBases(bucket: Bucket, items: ItemMap, w: Walk)
    requires WellFormed(bucket, items) && AllIn(bucket, w.queued) && |w.processed| <= |w.queued| && AllIn(bucket, w.processed)
  {
    multiset(w.baseItems) == BaseOccurrences(bucket, items, w.processed) + multiset(BaseEntries(bucket, items, CurrentBill(bucket, w), w.seen))
  }

  /** Every later entry was first met in the bill its origin names, in no
      earlier bill, and no later than the bill being walked; origins never
      decrease along the entries. */
  ghost predicate WalkFirstMet(bucket: Bucket, w: Walk)
    requires AllIn(bucket, w.queued)
  {
    && |w.origins| == |w.crafts|
    && (forall i :: 1 <= i < |w.crafts| ==>
          w.origins[i] <= |w.processed| && w.origins[i] < |w.queued| && w.crafts[i].id in bucket[w.queued[w.origins[i]]].items)
    && (forall i, q :: 1 <= i < |w.crafts| && 0 <= q < w.origins[i] && q < |w.queued| ==> w.crafts[i].id !in bucket[w.queued[q]].items)
    && (forall i, j :: 1 <= i < j < |w.crafts| ==> w.origins[i] <= w.origins[j])
  }

  ghost predicate Walking(bucket: Bucket, items: ItemMap, recId: string, w: Walk)
    requires WellFormed(bucket, items) && recId in bucket
  {
    && WalkQueue(bucket, recId, w)
    && WalkEntries(bucket, items, recId, w.crafts)
    && WalkIndex(w.crafts, w.index)
    && WalkOrigins(bucket, w.crafts, w.queued)
    && WalkClosed(bucket, w)
    && WalkCounts(bucket, w)
    && WalkBases(bucket, items, w)
    && WalkFirstMet(bucket, w)
  }

  /** The walk after a craftable ingredient met for the first time: its
      entry goes at the next layer and RecipeByItem's pick is queued. */
  function Discover(w: Walk, e: Entry, rid: string): Walk
  {
    Walk(w.crafts + [e], w.index[e.id := |w.crafts|], w.queued + [rid], w.processed, w.seen + {e.id}, w.baseItems,
         w.origins + [|w.processed|])
  }

  lemma QueueDiscover(bucket: Bucket, recId: string, w: Walk, e: Entry, rid: string)
    requires WalkQueue(bucket, recId, w)
    requires |w.processed| < |w.queued| && e.id in CurrentBill(bucket, w)
    requires rid in bucket
    ensures WalkQueue(bucket, recId, Discover(w, e, rid))
    ensures CurrentBill(bucket, Discover(w, e, rid)) == CurrentBill(bucket, w)
  {
    var queued' := w.queued + [rid];
    assert queued'[..|w.processed|] == w.queued[..|w.processed|];
  }

  lemma EntriesDiscover(bucket: Bucket, items: ItemMap, recId: string, crafts: seq<Entry>, e: Entry)
    requires recId in bucket
    requires WalkEntries(bucket, items, recId, crafts)
    requires e.id in items && e.name == items[e.id].name && e.layer == |crafts|
    requires forall i :: 0 <= i < |crafts| ==> crafts[i].id != e.id
    ensures WalkEntries(bucket, items, recId, crafts + [e])
  {
  }

  lemma IndexDiscover(crafts: seq<Entry>, index: map<string, nat>, e: Entry)
    requires WalkIndex(crafts, index) && e.id !in index
    ensures WalkIndex(crafts + [e], index[e.id := |crafts|])
  {
  }

  lemma OriginsDiscover(bucket: Bucket, crafts: seq<Entry>, queued: seq<string>, p: nat, e: Entry, r: Recipe)
    requires |queued| == |crafts| && AllIn(bucket, queued)
    requires WalkOrigins(bucket, crafts, queued)
    requires p < |queued| && e.id in bucket[queued[p]].items
    requires r.id in bucket && bucket[r.id] == r && IsRecipeChoice(bucket, e.id, Some(r))
    ensures WalkOrigins(bucket, crafts + [e], queued + [r.id])
  {
    var crafts', queued' := crafts + [e], queued + [r.id];
    assert AllIn(bucket, queued');
    forall i | 1 <= i < |crafts'|
      ensures MetBefore(bucket, queued', i, crafts'[i].id)
    {
      if i < |crafts| {
        assert MetBefore(bucket, queued, i, crafts[i].id);
        var j :| 0 <= j < i && j < |queued| && crafts[i].id in bucket[queued[j]].items;
        assert crafts'[i] == crafts[i] && queued'[j] == queued[j];
      } else {
        assert queued'[p] == queued[p] && p < i;
        assert crafts'[i].id in bucket[queued'[p]].items;
      }
    }
    forall i | 1 <= i < |crafts'|
      ensures IsRecipeChoice(bucket, crafts'[i].id, Some(bucket[queued'[i]]))
    {
      if i < |crafts| {
        assert crafts'[i] == crafts[i] && queued'[i] == queued[i];
      }
    }
  }

  lemma ClosedDiscover(bucket: Bucket, w: Walk, e: Entry, rid: string)
    requires AllIn(bucket, w.processed)
    requires WalkClosed(bucket, w)
    ensures WalkClosed(bucket, Discover(w, e, rid))
  {
  }

  /** An item in no processed bill has raw total 0. */
  lemma {:induction false} RawTotalAbsent(bucket: Bucket, processed: seq<string>, id: string)
    requires AllIn(bucket, processed)
    requires forall j :: 0 <= j < |processed| ==> id !in bucket[processed[j]].items
    ensures RawTotal(bucket, processed, id) == 0
  {
    if processed != [] {
      RawTotalAbsent(bucket, processed[..|processed| - 1], id);
    }
  }

  lemma CountsDiscover(bucket: Bucket, recId: string, w: Walk, e: Entry, rid: string)
    requires WalkQueue(bucket, recId, w) && WalkCounts(bucket, w) && WalkClosed(bucket, w) && WalkIndex(w.crafts, w.index)
    requires |w.processed| < |w.queued| && e.id in CurrentBill(bucket, w) && e.id !in w.seen && e.id !in w.index
    requires HasProducer(bucket, e.id) && e.count == CurrentBill(bucket, w)[e.id]
    requires rid in bucket
    ensures WalkCounts(bucket, Discover(w, e, rid))
  {
    var w' := Discover(w, e, rid);
    QueueDiscover(bucket, recId, w, e, rid);
    RawTotalAbsent(bucket, w.processed, e.id);
    forall i | 0 <= i < |w'.crafts|
      ensures w'.crafts[i].count == CountSoFar(bucket, w', i, w'.crafts[i].id)
    {
      if i < |w.crafts| {
        assert w'.crafts[i] == w.crafts[i];
        assert w.crafts[i].id != e.id;
      }
    }
  }

  lemma BasesDiscover(bucket: Bucket, items: ItemMap, recId: string, w: Walk, e: Entry, rid: string)
    requires WellFormed(bucket, items)
    requires WalkQueue(bucket, recId, w) && WalkBases(bucket, items, w)
    requires |w.processed| < |w.queued| && e.id in CurrentBill(bucket, w)
    requires HasProducer(bucket, e.id) && rid in bucket
    ensures WalkBases(bucket, items, Discover(w, e, rid))
  {
    var bill := CurrentBill(bucket, w);
    QueueDiscover(bucket, recId, w, e, rid);
    assert BaseEntries(bucket, items, bill, w.seen + {e.id}) == BaseEntries(bucket, items, bill, w.seen);
  }

  /** A craft met for the first time was met in no processed bill, since
      every craftable ingredient of those is listed. */
  lemma FirstMetDiscover(bucket: Bucket, recId: string, w: Walk, e: Entry, rid: string)
    requires WalkQueue(bucket, recId, w) && WalkClosed(bucket, w) && WalkFirstMet(bucket, w)
    requires |w.processed| < |w.queued| && e.id in CurrentBill(bucket, w) && e.id !in w.index
    requires HasProducer(bucket, e.id) && rid in bucket
    ensures WalkFirstMet(bucket, Discover(w, e, rid))
  {
    var w' := Discover(w, e, rid);
    QueueDiscover(bucket, recId, w, e, rid);
    forall q | 0 <= q < |w.processed|
      ensures e.id !in bucket[w'.queued[q]].items
    {
      assert w'.queued[q] == w.processed[q];
    }
    forall i | 1 <= i < |w'.crafts|
      ensures w'.origins[i] <= |w'.processed| && w'.origins[i] < |w'.queued| && w'.crafts[i].id in bucket[w'.queued[w'.origins[i]]].items
    {
      if i < |w.crafts| {
        assert w'.crafts[i] == w.crafts[i] && w'.origins[i] == w.origins[i] && w'.queued[w.origins[i]] == w.queued[w.origins[i]];
      }
    }
    forall i, q | 1 <= i < |w'.crafts| && 0 <= q < w'.origins[i] && q < |w'.queued|
      ensures w'.crafts[i].id !in bucket[w'.queued[q]].items
    {
      if i < |w.crafts| {
        assert w'.crafts[i] == w.crafts[i] && w'.origins[i] == w.origins[i] && w'.queued[q] == w.queued[q];
      }
    }
  }

  /** Discovering a craftable ingredient keeps the walk. */
  lemma WalkDiscover(bucket: Bucket, items: ItemMap, recId: string, w: Walk, e: Entry, r: Recipe)
    requires WellFormed(bucket, items) && recId in bucket
    requires Walking(bucket, items, recId, w)
    requires |w.processed| < |w.queued| && e.id in CurrentBill(bucket, w) && e.id !in w.seen
    requires IsRecipeChoice(bucket, e.id, Some(r)) && e.id !in w.index
    requires e == Entry(e.id, items[e.id].name, CurrentBill(bucket, w)[e.id], |w.crafts|)
    ensures r.id in bucket
    ensures Walking(bucket, items, recId, Discover(w, e, r.id))
  {
    ChoiceIsStored(bucket, items, e.id, r);
    QueueDiscover(bucket, recId, w, e, r.id);
    EntriesDiscover(bucket, items, recId, w.crafts, e);
    IndexDiscover(w.crafts, w.index, e);
    OriginsDiscover(bucket, w.crafts, w.queued, |w.processed|, e, r);
    ClosedDiscover(bucket, w, e, r.id);
    CountsDiscover(bucket, recId, w, e, r.id);
    BasesDiscover(bucket, items, recId, w, e, r.id);
    FirstMetDiscover(bucket, recId, w, e, r.id);
  }

  /** Every craft entry is an item some recipe produces. */
  lemma CraftsProduced(bucket: Bucket, items: ItemMap, recId: string, crafts: seq<Entry>, queued: seq<string>)
    requires recId in bucket && |queued| == |crafts| && AllIn(bucket, queued)
    requires WalkEntries(bucket, items, recId, crafts) && WalkOrigins(bucket, crafts, queued)
    ensures forall i :: 0 <= i < |crafts| ==> HasProducer(bucket, crafts[i].id)
  {
    forall i | 0 <= i < |crafts| ensures HasProducer(bucket, crafts[i].id) {
      if i == 0 {
        assert bucket[recId].itemId == crafts[0].id;
      } else {
        assert IsRecipeChoice(bucket, crafts[i].id, Some(bucket[queued[i]]));
      }
    }
  }

  /** The walk after a base ingredient: its entry is appended. */
  function Buy(w: Walk, e: Entry): Walk
  {
    w.(seen := w.seen + {e.id}, baseItems := w.baseItems + [e])
  }

  lemma CountsBuy(bucket: Bucket, recId: string, w: Walk, e: Entry)
    requires WalkQueue(bucket, recId, w) && WalkCounts(bucket, w)
    requires |w.processed| < |w.queued| && e.id in CurrentBill(bucket, w)
    requires forall i :: 0 <= i < |w.crafts| ==> w.crafts[i].id != e.id
    ensures WalkQueue(bucket, recId, Buy(w, e))
    ensures WalkCounts(bucket, Buy(w, e))
  {
    var w' := Buy(w, e);
    assert CurrentBill(bucket, w') == CurrentBill(bucket, w);
    forall i | 0 <= i < |w'.crafts|
      ensures w'.crafts[i].count == CountSoFar(bucket, w', i, w'.crafts[i].id)
    {
      assert w.crafts[i].id != e.id;
    }
  }

  lemma BasesBuy(bucket: Bucket, items: ItemMap, recId: string, w: Walk, ing: string)
    requires WellFormed(bucket, items)
    requires WalkQueue(bucket, recId, w) && WalkBases(bucket, items, w)
    requires |w.processed| < |w.queued| && ing in CurrentBill(bucket, w) && ing !in w.seen
    requires !HasProducer(bucket, ing)
    ensures var bill := CurrentBill(bucket, w);
      WalkBases(bucket, items, Buy(w, Entry(ing, items[ing].name, bill[ing], -1)))
  {
    var bill := CurrentBill(bucket, w);
    var e := Entry(ing, items[ing].name, bill[ing], -1);
    var w' := Buy(w, e);
    assert CurrentBill(bucket, w') == bill;
    assert BaseEntries(bucket, items, bill, w.seen + {ing}) == BaseEntries(bucket, items, bill, w.seen) + {e};
    assert e !in BaseEntries(bucket, items, bill, w.seen);
  }

  lemma FirstMetBuy(bucket: Bucket, w: Walk, e: Entry)
    requires AllIn(bucket, w.queued) && WalkFirstMet(bucket, w)
    ensures WalkFirstMet(bucket, Buy(w, e))
  {
  }

  /** Visiting a base ingredient keeps the walk. */
  lemma WalkBuy(bucket: Bucket, items: ItemMap, recId: string, w: Walk, e: Entry)
    requires WellFormed(bucket, items) && recId in bucket
    requires Walking(bucket, items, recId, w)
    requires |w.processed| < |w.queued| && e.id in CurrentBill(bucket, w) && e.id !in w.seen
    requires IsRecipeChoice(bucket, e.id, None)
    requires e == Entry(e.id, items[e.id].name, CurrentBill(bucket, w)[e.id], -1)
    ensures Walking(bucket, items, recId, Buy(w, e))
  {
    CraftsProduced(bucket, items, recId, w.crafts, w.queued);
    CountsBuy(bucket, recId, w, e);
    BasesBuy(bucket, items, recId, w, e.id);
    FirstMetBuy(bucket, w, e);
  }

  /** The walk after a craftable ingredient that already has entry `c`:
      its quantity is added to that entry. */
  function Again(w: Walk, c: nat, ing: string, count: int): Walk
    requires c < |w.crafts|
  {
    w.(crafts := Bump(w.crafts, c, count), seen := w.seen + {ing})
  }

  /** Entry `c` with `count` more. */
  function Bump(crafts: seq<Entry>, c: nat, count: int): (r: seq<Entry>)
    requires c < |crafts|
    ensures |r| == |crafts| && r[c].count == crafts[c].count + count
    ensures r[c].id == crafts[c].id && r[c].name == crafts[c].name && r[c].layer == crafts[c].layer
    ensures forall i :: 0 <= i < |crafts| && i != c ==> r[i] == crafts[i]
  {
    crafts[c := crafts[c].(count := crafts[c].count + count)]
  }

  lemma CountsAgain(bucket: Bucket, recId: string, w: Walk, ing: string)
    requires WalkQueue(bucket, recId, w) && WalkCounts(bucket, w) && WalkIndex(w.crafts, w.index)
    requires |w.processed| < |w.queued| && ing in CurrentBill(bucket, w) && ing !in w.seen && ing in w.index
    ensures WalkQueue(bucket, recId, Again(w, w.index[ing], ing, CurrentBill(bucket, w)[ing]))
    ensures WalkCounts(bucket, Again(w, w.index[ing], ing, CurrentBill(bucket, w)[ing]))
  {
    var c := w.index[ing];
    var w' := Again(w, c, ing, CurrentBill(bucket, w)[ing]);
    assert CurrentBill(bucket, w') == CurrentBill(bucket, w);
    forall i | 0 <= i < |w'.crafts|
      ensures w'.crafts[i].count == CountSoFar(bucket, w', i, w'.crafts[i].id)
    {
      if i != c {
        assert w.crafts[i].id != ing;
      }
    }
  }

  /** Two entry lists that differ in counts only. */
  ghost predicate SameEntries(crafts: seq<Entry>, crafts': seq<Entry>)
  {
    && |crafts'| == |crafts|
    && forall i :: 0 <= i < |crafts| ==> crafts'[i].id == crafts[i].id && crafts'[i].name == crafts[i].name && crafts'[i].layer == crafts[i].layer
  }

  lemma AgainSameEntries(w: Walk, c: nat, ing: string, count: int)
    requires c < |w.crafts|
    ensures SameEntries(w.crafts, Again(w, c, ing, count).crafts)
  {
  }

  lemma EntriesKept(bucket: Bucket, items: ItemMap, recId: string, crafts: seq<Entry>, crafts': seq<Entry>)
    requires recId in bucket
    requires WalkEntries(bucket, items, recId, crafts) && SameEntries(crafts, crafts')
    ensures WalkEntries(bucket, items, recId, crafts')
  {
  }

  lemma IndexKept(crafts: seq<Entry>, crafts': seq<Entry>, index: map<string, nat>)
    requires WalkIndex(crafts, index) && SameEntries(crafts, crafts')
    ensures WalkIndex(crafts', index)
  {
  }

  lemma OriginsKept(bucket: Bucket, crafts: seq<Entry>, crafts': seq<Entry>, queued: seq<string>)
    requires |queued| == |crafts| && AllIn(bucket, queued)
    requires WalkOrigins(bucket, crafts, queued) && SameEntries(crafts, crafts')
    ensures WalkOrigins(bucket, crafts', queued)
  {
    forall i | 1 <= i < |crafts'|
      ensures MetBefore(bucket, queued, i, crafts'[i].id)
      ensures IsRecipeChoice(bucket, crafts'[i].id, Some(bucket[queued[i]]))
    {
      assert crafts'[i].id == crafts[i].id;
    }
  }

  lemma FirstMetAgain(bucket: Bucket, w: Walk, c: nat, ing: string, count: int)
    requires AllIn(bucket, w.queued) && c < |w.crafts|
    requires WalkFirstMet(bucket, w)
    ensures WalkFirstMet(bucket, Again(w, c, ing, count))
  {
    var w' := Again(w, c, ing, count);
    forall i | 0 <= i < |w.crafts|
      ensures w'.crafts[i].id == w.crafts[i].id
    {
    }
  }

  lemma ClosedAgain(bucket: Bucket, w: Walk, c: nat, ing: string, count: int)
    requires AllIn(bucket, w.processed) && c < |w.crafts|
    requires WalkClosed(bucket, w) && ing in w.index
    ensures WalkClosed(bucket, Again(w, c, ing, count))
  {
  }

  lemma BasesAgain(bucket: Bucket, items: ItemMap, recId: string, w: Walk, ing: string)
    requires WellFormed(bucket, items)
    requires WalkQueue(bucket, recId, w) && WalkBases(bucket, items, w) && WalkIndex(w.crafts, w.index)
    requires |w.processed| < |w.queued| && ing in CurrentBill(bucket, w) && ing in w.index
    requires HasProducer(bucket, ing)
    ensures WalkBases(bucket, items, Again(w, w.index[ing], ing, CurrentBill(bucket, w)[ing]))
  {
    var bill := CurrentBill(bucket, w);
    assert BaseEntries(bucket, items, bill, w.seen + {ing}) == BaseEntries(bucket, items, bill, w.seen);
  }

  /** Visiting a craftable ingredient that has an entry keeps the walk. */
  lemma WalkAgain(bucket: Bucket, items: ItemMap, recId: string, w: Walk, ing: string, c: nat, count: int)
    requires WellFormed(bucket, items) && recId in bucket
    requires Walking(bucket, items, recId, w)
    requires |w.processed| < |w.queued| && ing in CurrentBill(bucket, w) && ing !in w.seen
    requires ing in w.index && c == w.index[ing] && count == CurrentBill(bucket, w)[ing]
    ensures c < |w.crafts|
    ensures Walking(bucket, items, recId, Again(w, c, ing, count))
  {
    var w' := Again(w, c, ing, count);
    CountsAgain(bucket, recId, w, ing);
    AgainSameEntries(w, c, ing, count);
    EntriesKept(bucket, items, recId, w.crafts, w'.crafts);
    IndexKept(w.crafts, w'.crafts, w.index);
    OriginsKept(bucket, w.crafts, w'.crafts, w.queued);
    CraftsProduced(bucket, items, recId, w.crafts, w.queued);
    assert w.crafts[c].id == ing;
    BasesAgain(bucket, items, recId, w, ing);
    ClosedAgain(bucket, w, c, ing, count);
    FirstMetAgain(bucket, w, c, ing, count);
  }

  /** The walk before the loop: the root's entry and its recipe queued. */
  function Start(bucket: Bucket, items: ItemMap, recId: string): Walk
    requires recId in bucket && bucket[recId].itemId in items
  {
    var root := items[bucket[recId].itemId];
    Walk([Entry(root.id, root.name, 1, 0)], map[root.id := 0], [recId], [], {}, [], [0])
  }

  lemma WalkStart(bucket: Bucket, items: ItemMap, recId: string)
    requires WellFormed(bucket, items) && recId in bucket
    ensures Walking(bucket, items, recId, Start(bucket, items, recId))
  {
    var w := Start(bucket, items, recId);
    assert BaseOccurrences(bucket, items, []) == multiset{};
    assert BaseEntries(bucket, items, CurrentBill(bucket, w), {}) == {};
  }

  /** The walk once the bill of the next queued recipe is done. */
  function Finish(w: Walk): Walk
    requires |w.processed| < |w.queued|
  {
    w.(processed := w.processed + [w.queued[|w.processed|]], seen := {})
  }

  lemma QueueFinish(bucket: Bucket, recId: string, w: Walk)
    requires WalkQueue(bucket, recId, w) && |w.processed| < |w.queued|
    ensures WalkQueue(bucket, recId, Finish(w))
    ensures Finish(w).processed[..|w.processed|] == w.processed
  {
    var p' := Finish(w).processed;
    assert p'[..|w.processed|] == w.processed;
    assert p' == w.queued[..|p'|];
  }

  lemma ClosedFinish(bucket: Bucket, recId: string, w: Walk)
    requires WalkQueue(bucket, recId, w) && WalkClosed(bucket, w) && |w.processed| < |w.queued|
    requires w.seen == CurrentBill(bucket, w).Keys
    ensures WalkQueue(bucket, recId, Finish(w))
    ensures WalkClosed(bucket, Finish(w))
  {
    QueueFinish(bucket, recId, w);
    var w' := Finish(w);
    forall j, ing | 0 <= j < |w'.processed| && ing in bucket[w'.processed[j]].items && HasProducer(bucket, ing)
      ensures ing in w'.index
    {
      if j < |w.processed| {
        assert w'.processed[j] == w.processed[j];
      } else {
        assert ing in w.seen;
      }
    }
  }

  lemma CountsFinish(bucket: Bucket, recId: string, w: Walk)
    requires WalkQueue(bucket, recId, w) && WalkCounts(bucket, w) && |w.processed| < |w.queued|
    requires w.seen == CurrentBill(bucket, w).Keys
    ensures WalkQueue(bucket, recId, Finish(w))
    ensures WalkCounts(bucket, Finish(w))
  {
    QueueFinish(bucket, recId, w);
    var w' := Finish(w);
    forall i | 0 <= i < |w'.crafts|
      ensures w'.crafts[i].count == CountSoFar(bucket, w', i, w'.crafts[i].id)
    {
      var id := w.crafts[i].id;
      assert RawTotal(bucket, w'.processed, id) == RawTotal(bucket, w.processed, id) + Quantity(CurrentBill(bucket, w), id);
    }
  }

  lemma BasesFinish(bucket: Bucket, items: ItemMap, recId: string, w: Walk)
    requires WellFormed(bucket, items)
    requires WalkQueue(bucket, recId, w) && WalkBases(bucket, items, w) && |w.processed| < |w.queued|
    requires w.seen == CurrentBill(bucket, w).Keys
    ensures WalkQueue(bucket, recId, Finish(w))
    ensures WalkBases(bucket, items, Finish(w))
  {
    QueueFinish(bucket, recId, w);
    var w' := Finish(w);
    assert BaseEntries(bucket, items, CurrentBill(bucket, w'), {}) == {};
    assert BaseOccurrences(bucket, items, w'.processed)
        == BaseOccurrences(bucket, items, w.processed) + multiset(BaseEntries(bucket, items, CurrentBill(bucket, w), w.seen));
  }

  lemma FirstMetFinish(bucket: Bucket, recId: string, w: Walk)
    requires WalkQueue(bucket, recId, w) && WalkFirstMet(bucket, w) && |w.processed| < |w.queued|
    ensures WalkFirstMet(bucket, Finish(w))
  {
  }

  /** Finishing a bill keeps the walk. */
  lemma WalkFinish(bucket: Bucket, items: ItemMap, recId: string, w: Walk)
    requires WellFormed(bucket, items) && recId in bucket
    requires Walking(bucket, items, recId, w) && |w.processed| < |w.queued|
    requires w.seen == CurrentBill(bucket, w).Keys
    ensures Walking(bucket, items, recId, Finish(w))
  {
    ClosedFinish(bucket, recId, w);
    CountsFinish(bucket, recId, w);
    BasesFinish(bucket, items, recId, w);
    FirstMetFinish(bucket, recId, w);
  }

  /** Every craftable ingredient of a processed bill is listed. */
  lemma ClosedCrafted(bucket: Bucket, w: Walk)
    requires AllIn(bucket, w.processed)
    requires WalkClosed(bucket, w) && WalkIndex(w.crafts, w.index)
    ensures forall j, ing :: 0 <= j < |w.processed| && ing in bucket[w.processed[j]].items && HasProducer(bucket, ing) ==>
      Crafted(Plan(w.baseItems, w.crafts), ing)
  {
    forall j, ing | 0 <= j < |w.processed| && ing in bucket[w.processed[j]].items && HasProducer(bucket, ing)
      ensures Crafted(Plan(w.baseItems, w.crafts), ing)
    {
      assert w.crafts[w.index[ing]].id == ing;
    }
  }

  /** Once every queued recipe is processed, the origins put the crafts in
      the order the queue first meets them. */
  lemma FirstMetOrdered(bucket: Bucket, w: Walk)
    requires AllIn(bucket, w.queued) && w.processed == w.queued
    requires WalkFirstMet(bucket, w)
    ensures FirstMetOrder(bucket, w.crafts, w.processed)
  {
    forall i, j, p | 1 <= i < j < |w.crafts| && 0 <= p < |w.processed| && w.crafts[j].id in bucket[w.processed[p]].items
      ensures MetBefore(bucket, w.processed, p + 1, w.crafts[i].id)
    {
      assert w.origins[j] <= p;
      assert w.crafts[i].id in bucket[w.processed[w.origins[i]]].items;
    }
  }

  /** A finished walk is a gather result. */
  lemma WalkDone(bucket: Bucket, items: ItemMap, recId: string, w: Walk)
    requires WellFormed(bucket, items) && recId in bucket
    requires Walking(bucket, items, recId, w) && |w.processed| == |w.queued| && w.seen == {}
    ensures GatherSpec(bucket, items, recId, Plan(w.baseItems, w.crafts), w.processed)
  {
    assert w.processed == w.queued;
    ClosedCrafted(bucket, w);
    FirstMetOrdered(bucket, w);
    assert BaseEntries(bucket, items, CurrentBill(bucket, w), {}) == {};
  }

  /** Every craft entry is a distinct produced item, so the walk has no more
      entries than produced items; this bounds the outer loop. */
  lemma WalkBound(bucket: Bucket, items: ItemMap, recId: string, w: Walk)
    requires WellFormed(bucket, items) && recId in bucket
    requires Walking(bucket, items, recId, w)
    ensures |w.crafts| <= |ProducedIds(bucket)|
  {
    var crafts := w.crafts;
    var ids := seq(|crafts|, i requires 0 <= i < |crafts| => crafts[i].id);
    CraftsProduced(bucket, items, recId, crafts, w.queued);
    forall i | 0 <= i < |ids|
      ensures ids[i] in ProducedIds(bucket)
    {
      assert HasProducer(bucket, crafts[i].id);
    }
    DistinctCardinality(ids);
    SubsetCardinality(set i | 0 <= i < |ids| :: ids[i], ProducedIds(bucket));
  }

  /** One step of the loops of gatherIngridients from `w` to `w'`: visit an
      unvisited ingredient of the current bill (a base item, a craft already
      listed, or a craft met for the first time with the recipe RecipeByItem
      picked), or, once the bill is done, move to the next queued recipe. */
  ghost predicate Step(bucket: Bucket, items: ItemMap, w: Walk, w': Walk)
    requires WellFormed(bucket, items)
  {
    && AllIn(bucket, w.queued) && |w.processed| < |w.queued|
    && var bill := CurrentBill(bucket, w);
    || (w.seen == bill.Keys && w' == Finish(w))
    || exists ing :: StepOn(bucket, items, w, w', ing)
  }

  /** Step on ingredient `ing` of the current bill. */
  ghost predicate StepOn(bucket: Bucket, items: ItemMap, w: Walk, w': Walk, ing: string)
    requires WellFormed(bucket, items) && AllIn(bucket, w.queued) && |w.processed| < |w.queued|
  {
    var bill := CurrentBill(bucket, w);
    && ing in bill && ing !in w.seen
    && ing in items
    && (|| (IsRecipeChoice(bucket, ing, None) && w' == Buy(w, Entry(ing, items[ing].name, bill[ing], -1)))
        || (ing in w.index && w.index[ing] < |w.crafts| && w' == Again(w, w.index[ing], ing, bill[ing]))
        || (ing !in w.index && exists r :: IsRecipeChoice(bucket, ing, Some(r)) && w' == Discover(w, Entry(ing, items[ing].name, bill[ing], |w.crafts|), r.id)))
  }

  /** `w` is reached from the start by `n` steps. */
  ghost predicate Reachable(bucket: Bucket, items: ItemMap, recId: string, w: Walk, n: nat)
    requires WellFormed(bucket, items) && recId in bucket
    decreases n, 1
  {
    if n == 0 then w == Start(bucket, items, recId)
    else Follows(bucket, items, recId, w, n)
  }

  /** `w` is one step from a walk reached by `n - 1` steps. */
  ghost predicate Follows(bucket: Bucket, items: ItemMap, recId: string, w: Walk, n: nat)
    requires WellFormed(bucket, items) && recId in bucket && n > 0
    decreases n, 0
  {
    exists prev :: Reachable(bucket, items, recId, prev, n - 1) && Step(bucket, items, prev, w)
  }

  /** Every reachable walk satisfies the loop invariant. */
  lemma {:induction false} ReachableWalking(bucket: Bucket, items: ItemMap, recId: string, w: Walk, n: nat)
    requires WellFormed(bucket, items) && recId in bucket
    requires Reachable(bucket, items, recId, w, n)
    ensures Walking(bucket, items, recId, w)
    decreases n
  {
    if n == 0 {
      WalkStart(bucket, items, recId);
    } else {
      assert Follows(bucket, items, recId, w, n);
      var prev :| Reachable(bucket, items, recId, prev, n - 1) && Step(bucket, items, prev, w);
      ReachableWalking(bucket, items, recId, prev, n - 1);
      var bill := CurrentBill(bucket, prev);
      if prev.seen == bill.Keys && w == Finish(prev) {
        WalkFinish(bucket, items, recId, prev);
      } else {
        var ing :| StepOn(bucket, items, prev, w, ing);
        if IsRecipeChoice(bucket, ing, None) && w == Buy(prev, Entry(ing, items[ing].name, bill[ing], -1)) {
          WalkBuy(bucket, items, recId, prev, Entry(ing, items[ing].name, bill[ing], -1));
        } else if ing in prev.index && prev.index[ing] < |prev.crafts| && w == Again(prev, prev.index[ing], ing, bill[ing]) {
          WalkAgain(bucket, items, recId, prev, ing, prev.index[ing], bill[ing]);
        } else {
          var r :| IsRecipeChoice(bucket, ing, Some(r)) && w == Discover(prev, Entry(ing, items[ing].name, bill[ing], |prev.crafts|), r.id);
          WalkDiscover(bucket, items, recId, prev, Entry(ing, items[ing].name, bill[ing], |prev.crafts|), r);
        }
      }
    }
  }

  /** Reachability grows by one with every step. */
  lemma ReachNext(bucket: Bucket, items: ItemMap, recId: string, w: Walk, w': Walk, n: nat, m: nat)
    requires WellFormed(bucket, items) && recId in bucket
    requires Reachable(bucket, items, recId, w, n) && Step(bucket, items, w, w') && m == n + 1
    ensures Reachable(bucket, items, recId, w', m)
  {
    assert Reachable(bucket, items, recId, w, m - 1);
    assert Follows(bucket, items, recId, w', m);
  }

  /** Visiting an ingredient with no recipe buys it. */
  lemma ReachBuy(bucket: Bucket, items: ItemMap, recId: string, w: Walk, w': Walk, n: nat, m: nat, ing: string)
    requires WellFormed(bucket, items) && recId in bucket
    requires Reachable(bucket, items, recId, w, n)
    requires AllIn(bucket, w.queued) && |w.processed| < |w.queued|
    requires ing in CurrentBill(bucket, w) && ing !in w.seen && ing in items
    requires IsRecipeChoice(bucket, ing, None)
    requires w' == Buy(w, Entry(ing, items[ing].name, CurrentBill(bucket, w)[ing], -1))
    requires m == n + 1
    ensures Reachable(bucket, items, recId, w', m)
  {
    assert StepOn(bucket, items, w, w', ing);
    ReachNext(bucket, items, recId, w, w', n, m);
  }

  /** A craft already listed has its entry in the crafts. */
  lemma ReachIndexed(bucket: Bucket, items: ItemMap, recId: string, w: Walk, n: nat, ing: string)
    requires WellFormed(bucket, items) && recId in bucket
    requires Reachable(bucket, items, recId, w, n)
    requires ing in w.index
    ensures w.index[ing] < |w.crafts|
  {
    ReachableWalking(bucket, items, recId, w, n);
  }

  /** Visiting a craft that is already listed adds to its count. */
  lemma ReachAgain(bucket: Bucket, items: ItemMap, recId: string, w: Walk, w': Walk, n: nat, m: nat, ing: string)
    requires WellFormed(bucket, items) && recId in bucket
    requires Reachable(bucket, items, recId, w, n)
    requires AllIn(bucket, w.queued) && |w.processed| < |w.queued|
    requires ing in CurrentBill(bucket, w) && ing !in w.seen && ing in items
    requires ing in w.index && w.index[ing] < |w.crafts|
    requires w' == Again(w, w.index[ing], ing, CurrentBill(bucket, w)[ing])
    requires m == n + 1
    ensures Reachable(bucket, items, recId, w', m)
  {
    assert StepOn(bucket, items, w, w', ing);
    ReachNext(bucket, items, recId, w, w', n, m);
  }

  /** Visiting a craft met for the first time lists it and queues the
      recipe RecipeByItem picked for it. */
  lemma ReachDiscover(bucket: Bucket, items: ItemMap, recId: string, w: Walk, w': Walk, n: nat, m: nat, ing: string, r: Recipe)
    requires WellFormed(bucket, items) && recId in bucket
    requires Reachable(bucket, items, recId, w, n)
    requires AllIn(bucket, w.queued) && |w.processed| < |w.queued|
    requires ing in CurrentBill(bucket, w) && ing !in w.seen && ing in items
    requires ing !in w.index && IsRecipeChoice(bucket, ing, Some(r))
    requires w' == Discover(w, Entry(ing, items[ing].name, CurrentBill(bucket, w)[ing], |w.crafts|), r.id)
    ensures r.id in bucket
    requires m == n + 1
    ensures Reachable(bucket, items, recId, w', m)
  {
    ChoiceIsStored(bucket, items, ing, r);
    assert StepOn(bucket, items, w, w', ing);
    ReachNext(bucket, items, recId, w, w', n, m);
  }

  /** Once the bill is done the next queued recipe is taken. */
  lemma ReachFinish(bucket: Bucket, items: ItemMap, recId: string, w: Walk, n: nat)
    requires WellFormed(bucket, items) && recId in bucket
    requires Reachable(bucket, items, recId, w, n)
    requires AllIn(bucket, w.queued) && |w.processed| < |w.queued|
    requires w.seen == CurrentBill(bucket, w).Keys
    ensures Reachable(bucket, items, recId, Finish(w), n + 1)
  {
    ReachNext(bucket, items, recId, w, Finish(w), n, n + 1);
  }

  /** A reachable walk keeps its queue in the bucket, and pops no more than
      there are craftable items, plus one. */
  lemma ReachBounds(bucket: Bucket, items: ItemMap, recId: string, w: Walk, n: nat)
    requires WellFormed(bucket, items) && recId in bucket
    requires Reachable(bucket, items, recId, w, n)
    ensures AllIn(bucket, w.queued) && |w.processed| <= |w.queued| <= |w.crafts| <= |ProducedIds(bucket)|
  {
    ReachableWalking(bucket, items, recId, w, n);
    WalkBound(bucket, items, recId, w);
  }

  /** A reachable walk with an empty queue is what gatherIngridients
      returns. */
  lemma ReachDone(bucket: Bucket, items: ItemMap, recId: string, w: Walk, n: nat)
    requires WellFormed(bucket, items) && recId in bucket
    requires Reachable(bucket, items, recId, w, n)
    requires |w.processed| == |w.queued| && w.seen == {}
    ensures GatherSpec(bucket, items, recId, Plan(w.baseItems, w.crafts), w.processed)
    ensures IsGatherResult(bucket, items, recId, Plan(w.baseItems, w.crafts))
  {
    ReachableWalking(bucket, items, recId, w, n);
    WalkDone(bucket, items, recId, w);
  }
}
