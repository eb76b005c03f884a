# aioncraft cost engine in Dafny

A model of the cost engine of the aioncraft crafting bot, with proofs about it. The bot keeps a catalog of
items and recipes for each race (Elyos, Asmodian) and each craft type. It serves four commands:

- **Set** stores a user-supplied price.
- **Price** prices every recipe of every item whose name matches a pattern.
- **Help** lists the crafting plan of an item.
- **Close** ends the dispatcher.

Long replies are split into chat-sized chunks before they are sent.

Modules:

- `Cost` (cost.dfy) covers `TheInt` of utility/theint.go. It is an integer with the list of "N/A reasons",
  which name the prices that are missing. `Plus`, `Mul` and `Div` are pure functions. Go's truncating `/`
  is written out as `TruncDiv`.
- `Catalog` (catalog.dfy) covers database/entity.go and database/database.go:
  - the `Race`, `CraftType` and `State` enums and the `Item` and `Recipe` records;
  - the `Database` class, with `New`, `NewFromJson` (`FromJson`), `Save` and the canonical-recipe choice
    `RecipeByItem`.
- `Input` (input.dfy) covers the `ActionType` enum and the `Command` record of input/input.go.
- `Text` (text.dfy) covers the four functions of Go's `strings` package that the core calls: `ToLower`,
  `TrimSpace`, `Split` and `Join`.
- `Pricing` (pricing.dfy) specifies `priceByRecipe` as a relation (`IsBatchPrice`) between a recipe and the
  prices a run may return. Both the map order and the per-call tie choice of `RecipeByItem` are left free.
  Acyclicity is a ghost rank on recipe IDs (`RankedBy`) that decreases along every pick `RecipeByItem` may
  make for an ingredient.
- `Planning` (planning.dfy) specifies what `gatherIngridients` returns (`GatherSpec`). It also proves that the
  walk ends even on a cyclic ingredient graph.
- `Gathering` (gathering.dfy) holds the loop state of that walk (`Walk`) and the lemmas that each step of the
  two loops keeps it.
- `Chunker` (chunker.dfy) covers the splitting loop of `sendMonitored` in utility/utility.go, as a method
  that returns the chunks in sending order. The packing loop is specified by the function `Pack`.
- `Processor` (processor.dfy) covers the processor of input/processor.go, a class over the catalog:
  - `Set` updates the catalog in place;
  - `PriceByRecipe` is recursive;
  - `GatherIngredients` is the breadth-first walk;
  - `Price` and `Help` are read-only loops;
  - `Work` serves a sequence of commands until the first Close.

  Replies are the values the reply text is formatted from.

Where the bot's documentation and its code disagree, the model follows the code:

- `RecipeByItem` breaks ties between producers with the same Count in map order, not by the smallest recipe
  ID. The model allows any minimal producer.
- `priceByRecipe` never divides by a recipe's Count, whether at the top or for an ingredient. A price is the
  cost of one execution of the recipe.
- `gatherIngridients` does not multiply counts along a path:
  - a repeated craft adds its raw quantity and keeps its first layer;
  - base items are listed once per occurrence;
  - crafts come out in ascending layer order.
- `Price` gives no line for a matching item without a recipe, rather than showing its base price.
- Reasons form a list that keeps duplicates, not a set.
- An invalid pattern makes `regexp.MustCompile` panic; it is not reported back as an error.
- `Set` takes whichever matching item map iteration meets first. It does not refuse ambiguous names.

## Model

| member | source | states |
|---|---|---|
| Cost.TruncDiv | utility/theint.go:36-39 | Go's `/`: the remainder is smaller than the divisor and has the dividend's sign |
| Cost.TruncatedQuotientUnique | utility/theint.go:37 | only one quotient has the truncation property, so `TruncDiv` is the only reading of Go's `/` |
| Cost.TruncDivVersusEuclidean | utility/theint.go:36-39 | Go's quotient equals Dafny's Euclidean `a / b` unless `a` is negative and not a multiple of `b`; then it is `a / b + 1` for a positive divisor and `a / b - 1` for a negative one |
| Cost.TruncDivOfMultiple | utility/theint.go:37 | dividing an exact multiple by its factor loses nothing |
| Cost.NewInt | utility/theint.go:10-15 | the value is `a` and there is exactly one reason, `name` |
| Cost.Plus | utility/theint.go:17-22 | values add; the reasons are `a`'s followed by `b`'s, duplicates kept (also as multisets) |
| Cost.Mul | utility/theint.go:24-29 | the value is scaled and the reasons are unchanged |
| Cost.Div | utility/theint.go:31-40 | by zero: value 0 with the single reason "" and `a`'s reasons dropped; otherwise a truncated quotient with `a`'s reasons kept |
| Cost.PlusZeroIdentity | utility/theint.go:17-22 | `{0, []}` is a left and right identity of Plus |
| Cost.PlusAssociative | utility/theint.go:17-22 | Plus is associative, reasons included |
| Cost.PlusCertain | utility/theint.go:17-22 | a sum has no reasons exactly when neither operand has any |
| Cost.MulDistributesOverPlus | utility/theint.go:17-29 | scaling distributes over a sum, reasons unaffected |
| Cost.DivUndoesMul | utility/theint.go:24-40 | `Div(Mul(a, k), k) == a` for every non-zero `k` |
| Cost.DivByZeroForgetsOperand | utility/theint.go:32-35 | division by zero gives the same one-reason value whatever the operand |
| Catalog.RaceCode | database/entity.go:3-6 | Elyos is 0 and Asmodian is 1, each at its own position in `Races` (database/database.go:7-10, 32-35) |
| Catalog.CraftCode | database/database.go:12-44 | the `iota` codes: every craft type except Morph sits at its code in `Crafts`, and Morph is not in `Crafts` |
| Catalog.Database.New | database/database.go:53-70 | state Created, nothing to save; an empty item map for every race; an empty recipe bucket for every race and every craft type of `Crafts`, and none for Morph |
| Catalog.Database.FromJson | database/database.go:72-78 | the decoded recipes, items and state are kept and SaveNeeded is cleared, whatever the snapshot says |
| Catalog.Database.Save | database/database.go:80-83 | SaveNeeded is cleared first, so the snapshot records it as false; nothing else changes |
| Catalog.SaveThenLoad | database/database.go:72-83 | saving and reloading gives a fresh catalog with nothing to save. The snapshot is the catalog copied out and back in, so recipes, items and state come back by construction; what the lemma adds is that SaveNeeded comes back false |
| Catalog.Database.RecipeByItem | database/database.go:85-100 | nothing exactly when no recipe of the bucket produces the item; otherwise a producer from the bucket, with Count 1 when one exists, else with a Count no larger than any producer's; the catalog is not changed |
| Input.ActionCode | input/input.go:7-12 | the four actions are numbered 0 to 3 in the order Price, Help, Set, Close, and each code decodes back to its action |
| Input.ActionOfCode | input/input.go:7-12 | an integer names an action exactly when it is between 0 and 3 |
| Text.Lower | input/processor.go:58-60 | the length is kept and every character is lowered |
| Text.LowerIdempotent | input/processor.go:58-60 | lowering twice lowers no further |
| Text.TrimSpace | input/processor.go:58 | the result is a slice of the input that neither starts nor ends with single-byte white space, and everything cut off is such white space |
| Text.TrimSpaceIdempotent | input/processor.go:58 | trimming a trimmed string changes nothing |
| Text.Split | utility/utility.go:20 | at least one part; no part holds the separator; joining the parts gives the string back |
| Text.SplitJoin | utility/utility.go:20 | splitting a join of separator-free parts gives the parts back |
| Pricing.ChoiceIsStored | input/processor.go:81-85 | a recipe RecipeByItem returns is stored under its own ID, so `rec.ID` finds it again |
| Pricing.AccumulateIsSum | input/processor.go:197-211 | the loop's result is the sum of quantity times unit value, and its reasons are those of every unit price in order, each once |
| Pricing.AllReasonsEmpty | input/processor.go:199-211 | the reasons are empty exactly when no unit price has any |
| Pricing.AllReasonsContains | input/processor.go:199-211 | every unit price's reasons are among the result's |
| Pricing.CoversSnoc | input/processor.go:199-211 | visiting one more ingredient of the bill lists it once, with its quantity |
| Pricing.PartialBillStart | input/processor.go:197-199 | before the loop, the empty list covers nothing of the bill |
| Pricing.PartialBillStep | input/processor.go:199-211 | one more ingredient with a usable unit price extends the partial bill, and the accumulated value grows by `unit.Mul(count)` with Plus |
| Pricing.UnitPricesSnoc | input/processor.go:199-211 | one more usable unit price keeps every unit price of the list usable |
| Pricing.PartialBillDone | input/processor.go:199-213 | when the bill is exhausted, the terms are the bill in some order, each with a usable unit price |
| Pricing.BaseUnitPrice | input/processor.go:202-205 | an ingredient with no recipe is priced at its item's price |
| Pricing.CraftedUnitPrice | input/processor.go:206-208 | a craftable ingredient is priced at a price of the recipe RecipeByItem picks for it |
| Pricing.ChoiceRanksLower | input/processor.go:206-208 | the recipe picked for an ingredient ranks strictly below the recipe being priced, so the recursion ends when the bucket is ranked along picks |
| Pricing.UnpickedCycleAccepted | database/database.go:85-100 | a producer cycle through a recipe RecipeByItem never returns (another producer has Count 1) still counts as acyclic, since priceByRecipe never follows it |
| Pricing.CertainWhenBasesKnown | input/processor.go:194-214 | when every base item reached from the recipe, through any picks RecipeByItem may make, has a known price, no price of the recipe has reasons |
| Pricing.MissingBasePriceShows | input/processor.go:194-214 | the reasons of a base item that every run reaches, whatever the picks, all appear in every price of the recipe, at any depth |
| Pricing.ReachedAlwaysWhenUnique | database/database.go:85-100 | when RecipeByItem has no ties, a base item some run reaches is reached by every run |
| Pricing.CertainIffBasesKnown | input/processor.go:194-214 | when RecipeByItem has no ties, a recipe's price has no reasons exactly when every base item reached from the recipe has a known price |
| Pricing.TiedPickHidesBase | database/database.go:85-100 | with two producers tied for RecipeByItem's pick, a recipe can be priced with no reasons although a base item with a missing price is reached from it through the other producer |
| Planning.DepthFirstOrderRejected | input/processor.go:145-166 | a depth-first craft order breaks FirstMetOrder: the queue meets b in the root's bill before it takes a's recipe, so c (met only under a) cannot come before b |
| Planning.GatherIsBounded | input/processor.go:146-169 | the walk takes no more recipes off its queue than there are craftable items, the root's own item counting among them, even on a cyclic graph |
| Gathering.WalkStart | input/processor.go:137-145 | the initial state: the root item at layer 0 with count 1, its recipe queued |
| Gathering.WalkBuy | input/processor.go:153-154 | a base ingredient appends one entry with its raw quantity at layer -1 and keeps the walk invariant |
| Gathering.WalkAgain | input/processor.go:156-157 | an already-listed craft adds the raw quantity to its entry and keeps the walk invariant |
| Gathering.WalkDiscover | input/processor.go:158-166 | a newly met craft gets the next layer and its recipe is queued, keeping the walk invariant |
| Gathering.WalkFinish | input/processor.go:146-151 | finishing a bill moves its recipe to the processed prefix and keeps the walk invariant |
| Gathering.CraftsProduced | input/processor.go:152-166 | every craft entry names an item some recipe of the bucket produces |
| Gathering.ClosedCrafted | input/processor.go:151-166 | every craftable ingredient of a processed bill has a craft entry |
| Gathering.FirstMetDiscover | input/processor.go:158-166 | a newly met craft was in no processed bill, so the bill being walked is where it was first met, and origins never decrease along the crafts |
| Gathering.FirstMetOrdered | input/processor.go:145-169 | once the queue is empty, the origins put the crafts in the order the first-in, first-out queue first meets them |
| Gathering.WalkDone | input/processor.go:146-178 | an empty queue means the walk's plan is what gatherIngridients returns, breadth-first order included |
| Gathering.WalkBound | input/processor.go:146-169 | there are never more craft entries than produced items |
| Gathering.ReachableWalking | input/processor.go:146-169 | every state the loops can reach satisfies the walk invariant |
| Gathering.ReachBuy | input/processor.go:153-154 | buying a base ingredient leads to a reachable state |
| Gathering.ReachIndexed | input/processor.go:156 | an ingredient already in `crafts` has its entry at the index recorded for it |
| Gathering.ReachAgain | input/processor.go:156-157 | adding to a listed craft leads to a reachable state |
| Gathering.ReachDiscover | input/processor.go:158-166 | discovering a craft leads to a reachable state |
| Gathering.ReachFinish | input/processor.go:146-151 | finishing a bill leads to a reachable state |
| Gathering.ReachBounds | input/processor.go:146-169 | in a reachable state the queue lies within the bucket and is bounded by the number of produced items |
| Gathering.ReachDone | input/processor.go:146-178 | a reachable state with an empty queue gives the plan gatherIngridients returns, breadth-first order included |
| Chunker.PackJoin | utility/utility.go:20-38 | nothing is lost or reordered: the chunks sent and the current chunk, joined with '\n', are the lines joined with '\n' after a leading '\n' |
| Chunker.PackJoinOne | utility/utility.go:22-37 | PackJoin for a single line |
| Chunker.PackOne | utility/utility.go:22-37 | one line: it is sent after an empty chunk when it alone reaches the limit, and otherwise becomes "\n" plus the line |
| Chunker.PackBounded | utility/utility.go:22-37 | every chunk sent is at most 2000 characters unless it is one input line; the same holds for the current chunk unless it is the last line |
| Chunker.PackFirstEmpty | utility/utility.go:21-24 | a first line that alone reaches the limit sends an empty chunk first |
| Chunker.PackEmptyCur | utility/utility.go:22-37 | the current chunk is empty only when a chunk was already sent and the last line is empty |
| Chunker.PackingKeepsJoin | utility/utility.go:22-37 | one step of the loop keeps the join of the chunks equal to "\n" followed by the join of the lines so far |
| Chunker.SplitForSending | utility/utility.go:15-43 | a short message goes out whole; a long one goes out as the chunks `Pack` of its lines sends, then the remainder if it is not empty; one long pause per 5 sends inside the loop |
| Chunker.SplitForSendingChunks | utility/utility.go:15-43 | the chunks of a long message: never none; joined they give back "\n" + message (less a final "\n" when an empty last line is dropped); each fits 2000 characters unless it is one line; the first is empty when the first line reaches the limit |
| Processor.CraftNamesCoverCrafts | input/processor.go:21-28 | `CraftTypeToName` names exactly the craft types of `Crafts` |
| Processor.LineReasonsEmpty | input/processor.go:88-101 | the missing-prices hint is empty exactly when no line shows "<N/A>" |
| Processor.LineReasonsSnoc | input/processor.go:88-91 | one more line adds exactly its price's reasons to the hint |
| Processor.AddReasons | input/processor.go:88-91 | the hint grows by exactly the price's reasons, whether or not Plus is applied |
| Processor.WithPrice | input/processor.go:59-63 | only the price of item `k` of the race changes; other items and other races are kept |
| Processor.WithPriceChangesOnlyPrices | input/processor.go:56-70 | setting a price changes no key, name or ID of the catalog |
| Processor.ReadyKeptByPrices | input/processor.go:56-70 | changing prices keeps every bucket of a craft type of `CraftTypeToName` well formed and acyclic |
| Processor.AllPricedSnoc | input/processor.go:80-93 | a correct line of a wanted item appended to correct lines gives correct lines |
| Processor.AllPricedMeans | input/processor.go:78-95 | every line is for a matching item offered in its craft type, with the price of the recipe it heads |
| Processor.AllPricedWanted | input/processor.go:97-101 | the first line of a non-empty reply is for a wanted item, so a reply with lines means some item was wanted |
| Processor.AllManualsSnoc | input/processor.go:111-119 | a correct section appended to correct sections gives correct sections |
| Processor.AllManualsMeans | input/processor.go:109-121 | every section is for an item with the requested name, offered in its craft type, with a plan gatherIngridients makes for the recipe it heads |
| Processor.AllManualsWanted | input/processor.go:123-125 | the first section of a non-empty reply is for a wanted item |
| Processor.ItemProgressAdd | input/processor.go:80-93 | the line of a craft type not yet visited is new: lines stay distinct per item and craft type, and nothing listed before is lost |
| Processor.PriceLineCorrect | input/processor.go:81-87 | a line built from RecipeByItem's pick and priceByRecipe's price is a correct line of a wanted item |
| Processor.HelpSectionCorrect | input/processor.go:112-118 | a section built from RecipeByItem's pick and gatherIngridients' plan is a correct section of a wanted item |
| Processor.Served | input/processor.go:40-53 | the commands served are every command up to and including the first Close |
| Processor.ServedUpTo | input/processor.go:40-53 | the number served is fixed by the position of the first Close |
| Processor.Processor.constructor | input/processor.go:17-19 | the processor works on the catalog it is given |
| Processor.Processor.Set | input/processor.go:56-70 | with a match (lowered name equal to the lowered, trimmed query), only that item's price changes, to the command's price with no reasons, and SaveNeeded is set; with none, nothing changes; recipes are never touched |
| Processor.Processor.PriceByRecipe | input/processor.go:194-214 | the result is a price of the recipe (`IsBatchPrice`): the sum over the bill of quantity times unit price, with no division by Count |
| Processor.Processor.GatherIngredients | input/processor.go:135-192 | the plan is the breadth-first walk's: raw counts, base items once per occurrence, the root at layer 0 with count 1, and the other crafts in the order the first-in, first-out queue first meets them, at layers 1, 2, … |
| Processor.Processor.VisitBill | input/processor.go:151-168 | visiting every ingredient of the bill at the head of the queue keeps the walk reachable |
| Processor.Processor.Visit | input/processor.go:152-167 | one ingredient is bought, added to its craft, or listed as a new craft with its recipe queued |
| Processor.Processor.Price | input/processor.go:72-103 | needs only its own race's buckets; "no items found" exactly when no item whose name matches the pattern has a recipe in a craft type of `CraftTypeToName`; otherwise one correct line for every wanted (item, craft type) pair, no pair twice, and the hint holds the reasons of the lines in order |
| Processor.Processor.PriceItem | input/processor.go:80-93 | for one matching item: a line for every craft type with a recipe for it, the reasons added to the hint |
| Processor.Processor.PriceLineOf | input/processor.go:81-87 | no line exactly when the craft type has no recipe for the item; otherwise a correct line |
| Processor.Processor.Help | input/processor.go:105-127 | "item not found" exactly when no item with the name has a recipe in a craft type of `CraftTypeToName` (an item with the name but no such recipe also gives it); otherwise one correct section for every (item, craft type) pair with a recipe, no pair twice |
| Processor.Processor.HelpItem | input/processor.go:111-119 | for one item with the name: a section for every craft type with a recipe for it |
| Processor.Processor.HelpSectionOf | input/processor.go:112-118 | no section exactly when the craft type has no recipe for the item; otherwise a correct section |
| Processor.Processor.Serve | input/processor.go:42-52 | the reply is that of Set, Price or Help with its whole contract: after a price set, the item reported (whose map key is its ID) matches the query and now holds the price, nothing else changing; "not found" replies exactly when nothing matches; Price and Help give their complete, correct, distinct lines or sections. Buckets stay well formed and acyclic; the catalog's state is unchanged, and SaveNeeded ends set exactly when it was set before or the reply reports a price set |
| Processor.Processor.Work | input/processor.go:30-54 | one reply per command served, on that command's channel, up to and including the first Close (answered with Bye); later commands are not served; the catalog's state is unchanged, and SaveNeeded ends set exactly when it was set before or some reply reports a price set |

## Left out

- Concurrency in `Work` (goroutines, the command and reply channels) is left out. Work takes a sequence of
  commands and returns the sequence of replies, each paired with its channel.
- Processor.Processor.Work: the Go loop waits for more commands forever; the model stops when the sequence
  runs out.
- Processor.Processor.Work: it states the kind of each reply and that only Set changes prices. What each reply
  contains is stated by Set, Price and Help for the catalog at the time of the command.
- JSON encoding in `NewFromJson` and `Save` is modelled as a `Snapshot` value that the catalog is copied into
  or out of. Decoding errors are not modelled.
- Regular expressions: `matches` stands for `regexp.MustCompile(cmd.Item).MatchString`. The panic on an
  invalid pattern is not modelled.
- `fmt.Sprintf` reply texts are modelled by the values they are formatted from (the `Reply` variants).
- `Text.Lower` lowers ASCII letters only. `strings.ToLower` also lowers other Unicode letters.
- Strings are sequences of characters that stand for bytes. UTF-8 is not modelled.
- `Item.Price` is a `*utility.TheInt` in Go (database/entity.go:11). Two items could share one price object,
  and Set writes into that object. The model keeps prices as values in the item map. Aliasing between items
  is not modelled.
- A nil `Item.Price` cannot be represented: every item of the model has a price. In Go an item stored without
  a price makes Set panic (input/processor.go:61). It also makes priceByRecipe panic in `Mul`
  (utility/theint.go:26) when it reaches that item as a base ingredient (input/processor.go:202-210).
- The `log.Errorf` that `Div` writes on a zero divisor (utility/theint.go:33) is not modelled. Only the
  returned value is.
- Text.TrimSpace: it trims single-byte white space only. Go also trims the multi-byte UTF-8 encodings of
  Unicode white space, such as U+0085, U+00A0 and U+2000.
- Catalog.Database.RecipeByItem: ties between producers with the same Count are not resolved. Any such
  producer satisfies the contract.
- Processor.Processor.PriceByRecipe: the choice for each ingredient may differ between calls, as it can in Go,
  because each call iterates the map afresh.
- Processor.Processor.GatherIngredients: the final `sort.SliceStable` over the craft map's values is modelled
  by the discovery order. Layers are exactly 0, 1, 2, …, so the sorted order is the discovery order.
- Processor.Processor.GatherIngredients: the base items are stated as a multiset, because their order follows
  the map iteration of each bill.
- Processor.Processor.Price: the order of lines is not stated, because it follows map iteration.
- Processor.Processor.Help: the order of sections is not stated, because it follows map iteration.
- Processor.Processor.Price requires its race's buckets to be well formed and ranked along picks (`RaceReady`):
  - a dangling ID makes Go dereference nil;
  - a cycle of picks lets some tie-breaking recurse forever.

  This condition is sufficient, not necessary: Go needs it only for the recipes reached from the items
  priced. Producer cycles that RecipeByItem never follows are allowed (Pricing.UnpickedCycleAccepted).
- Processor.Processor.Set: the reply reports the item's map key where Go prints `it.ID` (input/processor.go:65).
  The two agree whenever items are stored under their own ID, which Serve's precondition guarantees and its
  contract states; Set alone does not require it.
- Processor.Processor.Serve and Processor.Processor.Work require every bucket of both races, for the craft types
  of `CraftTypeToName`, to be ready, because a command may name either race. Morph has no name there
  (input/processor.go:21-28), so its buckets are never visited and nothing is required of them.
- Processor.Processor.Help requires well-formed buckets, for the craft types of `CraftTypeToName`, only. The walk
  ends on cyclic graphs too.
- Pricing.MissingBasePriceShows: it covers the base items every run reaches. When RecipeByItem has ties, one
  run may avoid a base item that another run reaches, so that item's reasons need not show up;
  Pricing.TiedPickHidesBase gives such a catalog.
  Pricing.CertainIffBasesKnown states the exact equivalence for buckets without ties (`UniquePicks`).
- Chunker.SplitForSendingChunks: "each chunk after the first starts with the line that overflowed the
  previous one" is not stated apart. It follows from the definition of `Pack`.
- Out-of-range integer codes of `Race`, `CraftType` and `ActionType` cannot be represented, since the enums
  are datatypes.
- Integers are unbounded. Go's `int` overflow in sums and products of prices is not modelled.
- The sleeps, `ChannelMessageSend` and the `go` of `SendMonitored` are not modelled. SplitForSending returns
  the chunks and counts the long pauses.
- main.go, input/discord.go, input/cli.go and the scrapper package are not part of this model.
