/**
 * The command processor of input/processor.go: it owns the catalog and
 * serves one command at a time. Map iteration is modelled by picking any
 * remaining key, so every contract holds whatever order Go's `range` uses.
 * Reply texts are modelled by the values they are formatted from.
 */
module Processor {
  import opened Cost
  import opened Catalog
  import opened Wrappers
  import opened Text
  import opened Pricing
  import opened Planning
  import opened Gathering
  import Input

  /** `CraftTypeToName`: the craft types a query looks at, with their
      display names. */
  const CraftTypeToName: map<CraftType, string> := map[
    Alchemy := "Alchemy",
    Armor := "Armorsmith",
    Cooking := "Cooking",
    Tailor := "Tailoring",
    Weapon := "Weaponsmith",
    Handicraft := "Handicraft"]

  /** The craft types named are exactly those of Crafts. */
  lemma CraftNamesCoverCrafts()
    ensures forall t :: t in CraftTypeToName <==> t in Crafts
  {
    forall t ensures t in CraftTypeToName <==> t in Crafts {
      if t != Morph { assert Crafts[CraftCode(t)] == t; }
    }
  }

  /** One section of a reply for item `itemId` and craft type `craft`: the
      recipe level and a body, the price of one execution of the recipe for
      Price and the plan for Help. */
  datatype Section<T> = Section(craft: CraftType, level: int, itemId: string, itemName: string, body: T)

  /** A Price line: "Type: ... (Level ...), Item: ... (...), Price: ..."; the
      line ends with "<N/A>" when the price has reasons. */
  type PriceLine = Section<TheInt>

  /** A Help section: "Type: ... (Level ...), Item: ..., Manual:" and the plan. */
  type HelpSection = Section<Plan>

  datatype Reply =
    | PriceSet(itemId: string, itemName: string, price: TheInt)  // "Price (...) successfully set for item ..."
    | SetNotFound(item: string)                                  // "Item (...) was not found."
    | Prices(lines: seq<PriceLine>, missing: seq<string>)        // the lines, then the hint when `missing` is not empty
    | NoItemsFound(pattern: string)                              // "No items found following expression: ..."
    | Manual(sections: seq<HelpSection>)                         // the sections, each closed by a rule
    | ItemNotFound(item: string)                                 // "Item not found: ..."
    | Bye                                                        // "Ok. Bye bye."

  /** A reply and the channel it is written to. */
  datatype Delivery = Delivery(out: Input.Channel, reply: Reply)

  /** No item and craft type has two sections. */
  ghost predicate Distinct<T>(ss: seq<Section<T>>)
  {
    forall i, j :: 0 <= i < j < |ss| ==> ss[i].itemId != ss[j].itemId || ss[i].craft != ss[j].craft
  }

  /** Item `id` has a section for craft type `ct`. */
  ghost predicate Listed<T>(ss: seq<Section<T>>, id: string, ct: CraftType)
  {
    exists s :: s in ss && s.itemId == id && s.craft == ct
  }

  /** One more section keeps what was listed, and lists its own item and
      craft type. */
  lemma ListedSnoc<T>(ss: seq<Section<T>>, s: Section<T>)
    ensures Listed(ss + [s], s.itemId, s.craft)
    ensures forall id, ct :: Listed(ss, id, ct) ==> Listed(ss + [s], id, ct)
  {
    assert s in ss + [s];
    forall id, ct | Listed(ss, id, ct)
      ensures Listed(ss + [s], id, ct)
    {
      var t :| t in ss && t.itemId == id && t.craft == ct;
      assert t in ss + [s];
    }
  }

  /** A section for another item or craft type keeps the sections distinct. */
  lemma DistinctSnoc<T>(ss: seq<Section<T>>, s: Section<T>)
    requires Distinct(ss)
    requires forall t :: t in ss ==> t.craft != s.craft || t.itemId != s.itemId
    ensures Distinct(ss + [s])
  {
    assert forall i :: 0 <= i < |ss| ==> ss[i] in ss;
  }

  /** The reasons of the prices of the lines, in order: what Price gathers
      with Plus from the lines marked "<N/A>". */
  function LineReasons(lines: seq<PriceLine>): (r: seq<string>)
    ensures lines == [] ==> r == []
  {
    if lines == [] then [] else LineReasons(lines[..|lines| - 1]) + lines[|lines| - 1].body.naReasons
  }

  /** The hint is shown exactly when some line shows "<N/A>". */
  lemma {:induction false} LineReasonsEmpty(lines: seq<PriceLine>)
    ensures LineReasons(lines) == [] <==> forall i :: 0 <= i < |lines| ==> lines[i].body.naReasons == []
  {
    if lines != [] {
      LineReasonsEmpty(lines[..|lines| - 1]);
      assert forall i :: 0 <= i < |lines| - 1 ==> lines[..|lines| - 1][i] == lines[i];
    }
  }

  /** What the loop of Price adds to its reasons for one more line. */
  lemma LineReasonsSnoc(lines: seq<PriceLine>, line: PriceLine)
    ensures LineReasons(lines + [line]) == LineReasons(lines) + line.body.naReasons
  {
    assert (lines + [line])[..|lines|] == lines;
  }

  /** Price's hint: a price with reasons is added to the hint with Plus,
      one without reasons leaves it as it is; either way the hint's
      reasons grow by exactly the price's reasons. */
  function AddReasons(acc: TheInt, price: TheInt): (r: TheInt)
    ensures r.naReasons == acc.naReasons + price.naReasons
  {
    if |price.naReasons| > 0 then Plus(acc, price)
    else assert acc.naReasons + price.naReasons == acc.naReasons; acc
  }

  /** Set's name match: lower-cased names equal after trimming the query. */
  predicate NameMatches(name: string, query: string)
  {
    Lower(name) == Lower(TrimSpace(query))
  }

  /** The catalog after item `k` of race `race` gets price `p`. */
  function WithPrice(items: map<Race, ItemMap>, race: Race, k: string, p: TheInt): (r: map<Race, ItemMap>)
    requires race in items && k in items[race]
    ensures r.Keys == items.Keys
    ensures forall other :: other in items && other != race ==> r[other] == items[other]
    ensures r[race].Keys == items[race].Keys
    ensures forall j :: j in items[race] && j != k ==> r[race][j] == items[race][j]
    ensures r[race][k].price == p
    ensures r[race][k].name == items[race][k].name && r[race][k].id == items[race][k].id
  {
    items[race := items[race][k := items[race][k].(price := p)]]
  }

  /** Two catalogs that differ in prices at most. */
  ghost predicate OnlyPricesDiffer(a: map<Race, ItemMap>, b: map<Race, ItemMap>)
  {
    && a.Keys == b.Keys
    && (forall r :: r in a ==> a[r].Keys == b[r].Keys)
    && (forall r, k :: r in a && k in a[r] ==> a[r][k].name == b[r][k].name && a[r][k].id == b[r][k].id)
  }

  /** Setting a price changes nothing but that price. */
  lemma WithPriceChangesOnlyPrices(items: map<Race, ItemMap>, race: Race, k: string, p: TheInt)
    requires race in items && k in items[race]
    ensures OnlyPricesDiffer(items, WithPrice(items, race, k, p))
  {
    var r: map<Race, ItemMap> := WithPrice(items, race, k, p);
    forall other: Race, j: string | other in items && j in items[other]
      ensures items[other][j].name == r[other][j].name && items[other][j].id == r[other][j].id
    {
      if other != race {
        assert r[other] == items[other];
      }
    }
  }

  /** Every bucket the commands can visit, of either race and a craft type
      of CraftTypeToName, is well formed against its race's items and
      acyclic: the shape priceByRecipe and gatherIngridients need to
      terminate without a nil dereference. */
  ghost predicate Ready(db: Database)
    reads db
  {
    forall race, ct :: ct in CraftTypeToName ==> ReadyBucket(db, race, ct)
  }

  /** The buckets Price visits, those of one race for the craft types of
      CraftTypeToName, are well formed and acyclic. */
  ghost predicate RaceReady(db: Database, race: Race)
    reads db
  {
    forall ct :: ct in CraftTypeToName ==> ReadyBucket(db, race, ct)
  }

  /** The bucket of `race` and `ct` is well formed and acyclic. */
  ghost predicate ReadyBucket(db: Database, race: Race, ct: CraftType)
    reads db
  {
    WellFormed(db.BucketOf(race, ct), db.ItemsOf(race)) && Acyclic(db.BucketOf(race, ct))
  }

  /** Changing prices keeps a catalog ready. */
  lemma ReadyKeptByPrices(db: Database, before: map<Race, ItemMap>)
    requires OnlyPricesDiffer(before, db.items)
    requires forall race, ct :: ct in CraftTypeToName ==> WellFormed(db.BucketOf(race, ct), if race in before then before[race] else map[])
    requires forall race, ct :: ct in CraftTypeToName ==> Acyclic(db.BucketOf(race, ct))
    ensures Ready(db)
  {
    forall race, ct | ct in CraftTypeToName ensures ReadyBucket(db, race, ct) {
      assert WellFormed(db.BucketOf(race, ct), if race in before then before[race] else map[]);
      assert Acyclic(db.BucketOf(race, ct));
    }
  }

  /** Price changes made one after another change prices only. */
  lemma OnlyPricesDifferTransitive(a: map<Race, ItemMap>, b: map<Race, ItemMap>, c: map<Race, ItemMap>)
    requires OnlyPricesDiffer(a, b) && OnlyPricesDiffer(b, c)
    ensures OnlyPricesDiffer(a, c)
  {
  }

  /** Each item is stored under its own ID. */
  lemma ItemsKeyedById(db: Database, race: Race, ct: CraftType)
    requires WellFormed(db.BucketOf(race, ct), db.ItemsOf(race))
    ensures forall id :: id in db.ItemsOf(race) ==> db.ItemsOf(race)[id].id == id
  {
  }

  /** Item `id` of race `race` has a recipe of craft type `ct`, a type
      CraftTypeToName names: Price and Help give it a section. */
  ghost predicate Offered(db: Database, race: Race, id: string, ct: CraftType)
    reads db
  {
    id in db.ItemsOf(race) && ct in CraftTypeToName && HasProducer(db.BucketOf(race, ct), id)
  }

  /** Price wants a line for item `id` and craft type `ct`: the item's name
      matches the pattern. */
  ghost predicate PriceWanted(db: Database, race: Race, pattern: string, matches: (string, string) -> bool, id: string, ct: CraftType)
    reads db
  {
    Offered(db, race, id, ct) && matches(pattern, db.ItemsOf(race)[id].name)
  }

  /** Help wants a section for item `id` and craft type `ct`: the item's
      name is the requested one, exactly. */
  ghost predicate HelpWanted(db: Database, race: Race, name: string, id: string, ct: CraftType)
    reads db
  {
    Offered(db, race, id, ct) && db.ItemsOf(race)[id].name == name
  }

  /** The heading of `s` names a catalog item, and a recipe RecipeByItem may
      pick for it in craft type `s.craft`, with that recipe's level. */
  ghost predicate Heads<T>(db: Database, race: Race, s: Section<T>, r: Recipe)
    reads db
  {
    && s.itemId in db.ItemsOf(race)
    && s.itemName == db.ItemsOf(race)[s.itemId].name
    && s.craft in CraftTypeToName
    && IsRecipeChoice(db.BucketOf(race, s.craft), s.itemId, Some(r))
    && s.level == r.level
  }

  /** A correct Price line: the price is that of one execution of the recipe
      the heading names. */
  ghost predicate IsPriceLine(db: Database, race: Race, line: PriceLine)
    reads db
  {
    exists r :: Heads(db, race, line, r) && IsRecipePrice(db.BucketOf(race, line.craft), db.ItemsOf(race), r.id, line.body)
  }

  /** A correct Help section: the plan is what gatherIngridients gives for
      the recipe the heading names. */
  ghost predicate IsHelpSection(db: Database, race: Race, section: HelpSection)
    reads db
  {
    exists r :: Heads(db, race, section, r) && IsGatherResult(db.BucketOf(race, section.craft), db.ItemsOf(race), r.id, section.body)
  }

  /** Every line of `lines` is a correct line of an item Price wants: the
      pattern matches the item's name, the item is offered in the line's
      craft type, and the price is that of the recipe the line heads. */
  ghost predicate AllPriced(db: Database, race: Race, pattern: string, matches: (string, string) -> bool, lines: seq<PriceLine>)
    reads db
    decreases |lines|, 2
  {
    lines != [] ==> PricedUpTo(db, race, pattern, matches, lines)
  }

  /** AllPriced of a non-empty list, one unfolding away from what it says
      of the last line, so that a proof only meets that when it asks for
      LastPriced. */
  ghost predicate PricedUpTo(db: Database, race: Race, pattern: string, matches: (string, string) -> bool, lines: seq<PriceLine>)
    requires lines != []
    reads db
    decreases |lines|, 1
  {
    LastPriced(db, race, pattern, matches, lines)
  }

  ghost predicate LastPriced(db: Database, race: Race, pattern: string, matches: (string, string) -> bool, lines: seq<PriceLine>)
    requires lines != []
    reads db
    decreases |lines|, 0
  {
    var l := lines[|lines| - 1];
    && AllPriced(db, race, pattern, matches, lines[..|lines| - 1])
    && PriceWanted(db, race, pattern, matches, l.itemId, l.craft)
    && IsPriceLine(db, race, l)
  }

  lemma AllPricedSnoc(db: Database, race: Race, pattern: string, matches: (string, string) -> bool, lines: seq<PriceLine>, l: PriceLine)
    requires AllPriced(db, race, pattern, matches, lines) && AllPriced(db, race, pattern, matches, [l])
    ensures AllPriced(db, race, pattern, matches, lines + [l])
  {
    assert LastPriced(db, race, pattern, matches, [l]);
    assert (lines + [l])[..|lines|] == lines;
    assert LastPriced(db, race, pattern, matches, lines + [l]);
  }

  /** What AllPriced says of each line. */
  lemma {:induction false} AllPricedMeans(db: Database, race: Race, pattern: string, matches: (string, string) -> bool, lines: seq<PriceLine>)
    requires AllPriced(db, race, pattern, matches, lines)
    ensures forall l :: l in lines ==> PriceWanted(db, race, pattern, matches, l.itemId, l.craft) && IsPriceLine(db, race, l)
    decreases |lines|
  {
    if lines != [] {
      var init := lines[..|lines| - 1];
      assert LastPriced(db, race, pattern, matches, lines);
      AllPricedMeans(db, race, pattern, matches, init);
      forall l | l in lines
        ensures PriceWanted(db, race, pattern, matches, l.itemId, l.craft) && IsPriceLine(db, race, l)
      {
        var i :| 0 <= i < |lines| && lines[i] == l;
        if i < |lines| - 1 {
          assert init[i] == l;
        }
      }
    }
  }

  /** The first line of a non-empty AllPriced list is wanted. */
  lemma AllPricedWanted(db: Database, race: Race, pattern: string, matches: (string, string) -> bool, lines: seq<PriceLine>)
    requires AllPriced(db, race, pattern, matches, lines)
    ensures lines != [] ==> PriceWanted(db, race, pattern, matches, lines[0].itemId, lines[0].craft)
  {
    if lines != [] {
      AllPricedMeans(db, race, pattern, matches, lines);
      assert lines[0] in lines;
    }
  }

  /** Every section of `sections` is a correct section of an item Help
      wants: the item has the requested name, it is offered in the
      section's craft type, and the plan is one gatherIngridients makes for
      the recipe the section heads. */
  ghost predicate AllManuals(db: Database, race: Race, name: string, sections: seq<HelpSection>)
    reads db
    decreases |sections|, 2
  {
    sections != [] ==> ManualsUpTo(db, race, name, sections)
  }

  /** AllManuals of a non-empty list, one unfolding away from what it says
      of the last section. */
  ghost predicate ManualsUpTo(db: Database, race: Race, name: string, sections: seq<HelpSection>)
    requires sections != []
    reads db
    decreases |sections|, 1
  {
    LastManual(db, race, name, sections)
  }

  ghost predicate LastManual(db: Database, race: Race, name: string, sections: seq<HelpSection>)
    requires sections != []
    reads db
    decreases |sections|, 0
  {
    var s := sections[|sections| - 1];
    && AllManuals(db, race, name, sections[..|sections| - 1])
    && HelpWanted(db, race, name, s.itemId, s.craft)
    && IsHelpSection(db, race, s)
  }

  lemma AllManualsSnoc(db: Database, race: Race, name: string, sections: seq<HelpSection>, s: HelpSection)
    requires AllManuals(db, race, name, sections) && AllManuals(db, race, name, [s])
    ensures AllManuals(db, race, name, sections + [s])
  {
    assert LastManual(db, race, name, [s]);
    assert (sections + [s])[..|sections|] == sections;
    assert LastManual(db, race, name, sections + [s]);
  }

  /** The first section of a non-empty AllManuals list is wanted. */
  lemma AllManualsWanted(db: Database, race: Race, name: string, sections: seq<HelpSection>)
    requires AllManuals(db, race, name, sections)
    ensures sections != [] ==> HelpWanted(db, race, name, sections[0].itemId, sections[0].craft)
  {
    if sections != [] {
      AllManualsMeans(db, race, name, sections);
      assert sections[0] in sections;
    }
  }

  /** What AllManuals says of each section. */
  lemma {:induction false} AllManualsMeans(db: Database, race: Race, name: string, sections: seq<HelpSection>)
    requires AllManuals(db, race, name, sections)
    ensures forall s :: s in sections ==> HelpWanted(db, race, name, s.itemId, s.craft) && IsHelpSection(db, race, s)
    decreases |sections|
  {
    if sections != [] {
      var init := sections[..|sections| - 1];
      assert LastManual(db, race, name, sections);
      AllManualsMeans(db, race, name, init);
      forall s | s in sections
        ensures HelpWanted(db, race, name, s.itemId, s.craft) && IsHelpSection(db, race, s)
      {
        var i :| 0 <= i < |sections| && sections[i] == s;
        if i < |sections| - 1 {
          assert init[i] == s;
        }
      }
    }
  }

  /** How far the inner loop of Price or Help has come for item `id` when
      the craft types `cts` are still to visit: every section added to
      `before` is for `id` and a craft type already visited, nothing listed
      before is lost, and every visited craft type that offers the item has
      its section. */
  ghost predicate ItemProgress<T>(db: Database, race: Race, id: string, before: seq<Section<T>>, ss: seq<Section<T>>, cts: set<CraftType>)
    reads db
  {
    && (forall s :: s in ss ==> s in before || (s.itemId == id && s.craft !in cts))
    && (forall i, c :: Listed(before, i, c) ==> Listed(ss, i, c))
    && (forall c :: c !in cts && Offered(db, race, id, c) ==> Listed(ss, id, c))
  }

  /** Before the first craft type is visited nothing is owed. */
  lemma ItemProgressStart<T>(db: Database, race: Race, id: string, before: seq<Section<T>>)
    ensures ItemProgress(db, race, id, before, before, CraftTypeToName.Keys)
  {
  }

  /** A craft type with no recipe for the item adds no section. */
  lemma ItemProgressSkip<T>(db: Database, race: Race, id: string, before: seq<Section<T>>, ss: seq<Section<T>>, cts: set<CraftType>, ct: CraftType)
    requires ItemProgress(db, race, id, before, ss, cts)
    requires !HasProducer(db.BucketOf(race, ct), id)
    ensures ItemProgress(db, race, id, before, ss, cts - {ct})
  {
  }

  /** The section of a craft type not yet visited is new: the sections stay
      distinct and the loop moves on. */
  lemma ItemProgressAdd<T>(db: Database, race: Race, id: string, before: seq<Section<T>>, ss: seq<Section<T>>, cts: set<CraftType>, s: Section<T>)
    requires ItemProgress(db, race, id, before, ss, cts) && Distinct(ss)
    requires forall t :: t in before ==> t.itemId != id
    requires s.itemId == id && s.craft in cts
    ensures ItemProgress(db, race, id, before, ss + [s], cts - {s.craft})
    ensures Distinct(ss + [s])
  {
    DistinctSnoc(ss, s);
    ListedSnoc(ss, s);
  }

  /** A Price line built from the recipe RecipeByItem picked and the price
      priceByRecipe gave it is a correct line of an item Price wants. */
  lemma PriceLineCorrect(db: Database, race: Race, pattern: string, matches: (string, string) -> bool,
                         line: PriceLine, r: Recipe, rank: map<string, nat>)
    requires line.itemId in db.ItemsOf(race) && db.ItemsOf(race)[line.itemId].name == line.itemName
    requires matches(pattern, line.itemName)
    requires line.craft in CraftTypeToName && line.level == r.level
    requires IsRecipeChoice(db.BucketOf(race, line.craft), line.itemId, Some(r))
    requires WellFormed(db.BucketOf(race, line.craft), db.ItemsOf(race)) && RankedBy(db.BucketOf(race, line.craft), rank)
    requires r.id in db.BucketOf(race, line.craft)
    requires IsBatchPrice(db.BucketOf(race, line.craft), db.ItemsOf(race), rank, r.id, line.body)
    ensures AllPriced(db, race, pattern, matches, [line])
  {
    var bucket := db.BucketOf(race, line.craft);
    ChoiceIsStored(bucket, db.ItemsOf(race), line.itemId, r);
    assert HasProducer(bucket, line.itemId);
    assert Heads(db, race, line, r);
    assert [line][..0] == [];
    assert LastPriced(db, race, pattern, matches, [line]);
  }

  /** A Help section built from the recipe RecipeByItem picked and the plan
      gatherIngridients made for it is a correct section of an item Help
      wants. */
  lemma HelpSectionCorrect(db: Database, race: Race, section: HelpSection, r: Recipe, processed: seq<string>)
    requires section.itemId in db.ItemsOf(race) && db.ItemsOf(race)[section.itemId].name == section.itemName
    requires section.craft in CraftTypeToName && section.level == r.level
    requires IsRecipeChoice(db.BucketOf(race, section.craft), section.itemId, Some(r))
    requires WellFormed(db.BucketOf(race, section.craft), db.ItemsOf(race)) && r.id in db.BucketOf(race, section.craft)
    requires GatherSpec(db.BucketOf(race, section.craft), db.ItemsOf(race), r.id, section.body, processed)
    ensures AllManuals(db, race, section.itemName, [section])
  {
    var bucket := db.BucketOf(race, section.craft);
    ChoiceIsStored(bucket, db.ItemsOf(race), section.itemId, r);
    assert HasProducer(bucket, section.itemId);
    assert Heads(db, race, section, r);
    assert [section][..0] == [];
    assert LastManual(db, race, section.itemName, [section]);
  }

  /** How many commands Work takes from its channel: all of them up to and
      including the first Close. */
  function Served(cmds: seq<Input.Command>): (n: nat)
    ensures n <= |cmds|
    ensures cmds != [] ==> n > 0
    ensures forall i :: 0 <= i < n - 1 ==> cmds[i].action != Input.Close
    ensures n == |cmds| || cmds[n - 1].action == Input.Close
  {
    if cmds == [] then 0
    else if cmds[0].action == Input.Close then 1
    else 1 + Served(cmds[1..])
  }

  /** The number served is fixed by the position of the first Close. */
  lemma {:induction false} ServedUpTo(cmds: seq<Input.Command>, i: nat)
    requires i <= |cmds|
    requires forall j :: 0 <= j < i ==> cmds[j].action != Input.Close
    requires i == |cmds| || cmds[i].action == Input.Close
    ensures Served(cmds) == if i == |cmds| then i else i + 1
  {
    if i > 0 {
      ServedUpTo(cmds[1..], i - 1);
    }
  }

  /** The kind of reply each action gets, and what it echoes of the
      command. */
  ghost predicate Answers(cmd: Input.Command, reply: Reply)
  {
    match cmd.action
    case Close => reply == Bye
    case Set => (reply.PriceSet? && reply.price == TheInt(cmd.price, [])) || reply == SetNotFound(cmd.item)
    case Price => reply.Prices? || reply == NoItemsFound(cmd.item)
    case Help => reply.Manual? || reply == ItemNotFound(cmd.item)
  }

  /** Some reply among `deliveries` reports a price set, the only reply
      after which the catalog needs saving. */
  predicate SomePriceSet(deliveries: seq<Delivery>)
  {
    exists i :: 0 <= i < |deliveries| && deliveries[i].reply.PriceSet?
  }

  /** One more delivery sets a price somewhere exactly when it does or an
      earlier one did. */
  lemma SomePriceSetSnoc(deliveries: seq<Delivery>, d: Delivery)
    ensures SomePriceSet(deliveries + [d]) <==> SomePriceSet(deliveries) || d.reply.PriceSet?
  {
    var ds := deliveries + [d];
    if SomePriceSet(deliveries) {
      var i :| 0 <= i < |deliveries| && deliveries[i].reply.PriceSet?;
      assert ds[i] == deliveries[i];
    }
    if d.reply.PriceSet? {
      assert ds[|deliveries|] == d;
    }
    if SomePriceSet(ds) {
      var i :| 0 <= i < |ds| && ds[i].reply.PriceSet?;
      if i < |deliveries| {
        assert ds[i] == deliveries[i];
      }
    }
  }

  class Processor {
    const db: Database

    /** `NewProcessor(db)`. */
    constructor (db: Database)
      ensures this.db == db
    {
      this.db := db;
    }

    /** `Set`: the first item of the race whose name matches gets the
        command's price with no reasons, and the catalog is marked as
        needing a save; with no match nothing changes. */
    method Set(cmd: Input.Command) returns (reply: Reply)
      modifies db
      ensures db.recipes == old(db.recipes) && db.curState == old(db.curState)
      ensures reply.PriceSet? || reply.SetNotFound?
      ensures reply.SetNotFound? <==>
        forall k :: k in old(db.ItemsOf(cmd.race)) ==> !NameMatches(old(db.ItemsOf(cmd.race))[k].name, cmd.item)
      ensures reply.SetNotFound? ==>
        reply.item == cmd.item && db.items == old(db.items) && db.saveNeeded == old(db.saveNeeded)
      ensures reply.PriceSet? ==>
        && cmd.race in old(db.items)
        && reply.itemId in old(db.items)[cmd.race]
        && NameMatches(old(db.items)[cmd.race][reply.itemId].name, cmd.item)
        && db.items == WithPrice(old(db.items), cmd.race, reply.itemId, TheInt(cmd.price, []))
        && reply.price == TheInt(cmd.price, [])
        && db.saveNeeded
      ensures OnlyPricesDiffer(old(db.items), db.items)
    {
      var items := db.ItemsOf(cmd.race);
      var name := Lower(TrimSpace(cmd.item));
      var rest := items.Keys;
      while rest != {}
        invariant rest <= items.Keys
        invariant forall k :: k in items && k !in rest ==> !NameMatches(items[k].name, cmd.item)
        invariant db.items == old(db.items) && db.saveNeeded == old(db.saveNeeded)
        invariant db.recipes == old(db.recipes) && db.curState == old(db.curState)
        decreases rest
      {
        var k :| k in rest;
        var it := items[k];
        if Lower(it.name) == name {
          var price := TheInt(cmd.price, []);
          WithPriceChangesOnlyPrices(db.items, cmd.race, k, price);
          db.items := WithPrice(db.items, cmd.race, k, price);
          db.saveNeeded := true;
          return PriceSet(k, it.name, price);
        }
        rest := rest - {k};
      }
      assert OnlyPricesDiffer(db.items, db.items);
      return SetNotFound(cmd.item);
    }

    /** `priceByRecipe`: the cost of one execution of recipe `id`, the sum
        over its bill of quantity times the ingredient's price, a craftable
        ingredient being priced by a recursive call on the recipe
        RecipeByItem picks. */
    method PriceByRecipe(race: Race, ct: CraftType, id: string, ghost rank: map<string, nat>) returns (rv: TheInt)
      requires WellFormed(db.BucketOf(race, ct), db.ItemsOf(race))
      requires RankedBy(db.BucketOf(race, ct), rank)
      requires id in db.BucketOf(race, ct)
      ensures IsBatchPrice(db.BucketOf(race, ct), db.ItemsOf(race), rank, id, rv)
      decreases rank[id]
    {
      var similarRecs := db.BucketOf(race, ct);
      var items := db.ItemsOf(race);
      var rec := similarRecs[id];
      rv := Zero;
      ghost var terms: seq<Term> := [];
      var rest := rec.items.Keys;
      PartialBillStart(similarRecs, items, rank, id);
      while rest != {}
        invariant rv == Accumulate(terms)
        invariant IsPartialBill(similarRecs, items, rank, id, terms, rest)
        decreases rest
      {
        var item :| item in rest;
        var count := rec.items[item];
        var recPrice: TheInt;
        var sub := db.RecipeByItem(race, ct, item);
        if sub.None? {
          recPrice := items[item].price;
          BaseUnitPrice(similarRecs, items, rank, id, item);
        } else {
          ChoiceRanksLower(similarRecs, items, rank, id, item, sub.value);
          recPrice := PriceByRecipe(race, ct, sub.value.id, rank);
          CraftedUnitPrice(similarRecs, items, rank, id, item, sub.value, recPrice);
        }
        PartialBillStep(similarRecs, items, rank, id, terms, rest, item, recPrice);
        rv := Plus(rv, Mul(recPrice, count));
        terms := terms + [Term(item, count, recPrice)];
        rest := rest - {item};
      }
      PartialBillDone(similarRecs, items, rank, id, terms);
    }

    /** `gatherIngridients`: the breadth-first walk from recipe `recId`.
        Base ingredients get one entry per occurrence; a craftable one gets
        one entry when first met, at the next layer, and the recipe
        RecipeByItem picks for it is queued; meeting it again adds the
        quantity. The craft entries come out in layer order, which is the
        order the layer-sorted map values have. `processed` is the order the
        recipes left the queue. */
    method GatherIngredients(race: Race, ct: CraftType, recId: string) returns (plan: Plan, ghost processed: seq<string>)
      requires WellFormed(db.BucketOf(race, ct), db.ItemsOf(race))
      requires recId in db.BucketOf(race, ct)
      ensures GatherSpec(db.BucketOf(race, ct), db.ItemsOf(race), recId, plan, processed)
      ensures IsGatherResult(db.BucketOf(race, ct), db.ItemsOf(race), recId, plan)
    {
      var recipes := db.BucketOf(race, ct);
      var items := db.ItemsOf(race);
      var rec := recipes[recId];
      var item := items[rec.itemId];
      var queue := [recId];
      var baseItems: seq<Entry> := [];
      var crafts := [Entry(item.id, item.name, 1, 0)];
      var index := map[item.id := 0];
      var layer := 0;
      ghost var w := Start(recipes, items, recId);
      ghost var steps := 0;
      while |queue| > 0
        invariant Reachable(recipes, items, recId, w, steps) && w.seen == {}
        invariant w.crafts == crafts && w.index == index && w.baseItems == baseItems
        invariant |w.processed| <= |w.queued| && queue == w.queued[|w.processed|..]
        invariant layer == |crafts| - 1
        decreases |ProducedIds(recipes)| - |w.processed|
      {
        ReachBounds(recipes, items, recId, w, steps);
        var cur := queue[0];
        queue := queue[1..];
        rec := recipes[cur];
        crafts, index, baseItems, queue, layer, w, steps :=
          VisitBill(race, ct, recId, rec, crafts, index, baseItems, queue, layer, w, steps);
        ReachFinish(recipes, items, recId, w, steps);
        w := Finish(w);
        steps := steps + 1;
        ReachBounds(recipes, items, recId, w, steps);
      }
      plan := Plan(baseItems, crafts);
      ReachDone(recipes, items, recId, w, steps);
      processed := w.processed;
    }

    /** The inner loop of gatherIngridients: every ingredient of the bill of
        `rec`, the recipe at the head of the queue, is visited once. */
    method VisitBill(race: Race, ct: CraftType, ghost recId: string, rec: Recipe,
                     crafts0: seq<Entry>, index0: map<string, nat>, baseItems0: seq<Entry>, queue0: seq<string>, layer0: int,
                     ghost w0: Walk, ghost steps0: nat)
      returns (crafts: seq<Entry>, index: map<string, nat>, baseItems: seq<Entry>, queue: seq<string>, layer: int,
               ghost w: Walk, ghost steps: nat)
      requires WellFormed(db.BucketOf(race, ct), db.ItemsOf(race)) && recId in db.BucketOf(race, ct)
      requires Reachable(db.BucketOf(race, ct), db.ItemsOf(race), recId, w0, steps0) && w0.seen == {}
      requires |w0.processed| < |w0.queued| && AllIn(db.BucketOf(race, ct), w0.queued)
      requires rec == db.BucketOf(race, ct)[w0.queued[|w0.processed|]]
      requires w0.crafts == crafts0 && w0.index == index0 && w0.baseItems == baseItems0
      requires queue0 == w0.queued[|w0.processed| + 1..] && layer0 == |crafts0| - 1
      ensures Reachable(db.BucketOf(race, ct), db.ItemsOf(race), recId, w, steps)
      ensures w.processed == w0.processed && |w.processed| < |w.queued| && AllIn(db.BucketOf(race, ct), w.queued)
      ensures w.seen == CurrentBill(db.BucketOf(race, ct), w).Keys
      ensures w.crafts == crafts && w.index == index && w.baseItems == baseItems
      ensures queue == w.queued[|w.processed| + 1..] && layer == |crafts| - 1
    {
      crafts, index, baseItems, queue, layer, w, steps := crafts0, index0, baseItems0, queue0, layer0, w0, steps0;
      var rest := rec.items.Keys;
      while rest != {}
        invariant Reachable(db.BucketOf(race, ct), db.ItemsOf(race), recId, w, steps)
        invariant w.processed == w0.processed && |w.processed| < |w.queued| && AllIn(db.BucketOf(race, ct), w.queued)
        invariant w.queued[|w.processed|] == w0.queued[|w0.processed|]
        invariant rest == rec.items.Keys - w.seen && w.seen <= rec.items.Keys
        invariant w.crafts == crafts && w.index == index && w.baseItems == baseItems
        invariant queue == w.queued[|w.processed| + 1..] && layer == |crafts| - 1
        decreases rest
      {
        var id :| id in rest;
        crafts, index, baseItems, queue, layer, w, steps :=
          Visit(race, ct, recId, rec, id, crafts, index, baseItems, queue, layer, w, steps);
        rest := rest - {id};
      }
    }

    /** One pass of the inner loop of gatherIngridients: ingredient `id` of
        the bill of `rec` is bought, added to its craft entry, or listed as
        a new craft whose recipe is queued. */
    method Visit(race: Race, ct: CraftType, ghost recId: string, rec: Recipe, id: string,
                 crafts0: seq<Entry>, index0: map<string, nat>, baseItems0: seq<Entry>, queue0: seq<string>, layer0: int,
                 ghost w0: Walk, ghost steps0: nat)
      returns (crafts: seq<Entry>, index: map<string, nat>, baseItems: seq<Entry>, queue: seq<string>, layer: int,
               ghost w: Walk, ghost steps: nat)
      requires WellFormed(db.BucketOf(race, ct), db.ItemsOf(race)) && recId in db.BucketOf(race, ct)
      requires Reachable(db.BucketOf(race, ct), db.ItemsOf(race), recId, w0, steps0)
      requires |w0.processed| < |w0.queued| && AllIn(db.BucketOf(race, ct), w0.queued)
      requires rec == db.BucketOf(race, ct)[w0.queued[|w0.processed|]]
      requires id in rec.items && id !in w0.seen
      requires w0.crafts == crafts0 && w0.index == index0 && w0.baseItems == baseItems0
      requires queue0 == w0.queued[|w0.processed| + 1..] && layer0 == |crafts0| - 1
      ensures Reachable(db.BucketOf(race, ct), db.ItemsOf(race), recId, w, steps)
      ensures w.processed == w0.processed && |w.processed| < |w.queued| && AllIn(db.BucketOf(race, ct), w.queued)
      ensures w.queued[|w.processed|] == w0.queued[|w0.processed|]
      ensures w.seen == w0.seen + {id}
      ensures w.crafts == crafts && w.index == index && w.baseItems == baseItems
      ensures queue == w.queued[|w.processed| + 1..] && layer == |crafts| - 1
    {
      var recipes := db.BucketOf(race, ct);
      var items := db.ItemsOf(race);
      crafts, index, baseItems, queue, layer := crafts0, index0, baseItems0, queue0, layer0;
      var count := rec.items[id];
      assert CurrentBill(recipes, w0) == rec.items;
      var subRec := db.RecipeByItem(race, ct, id);
      steps := steps0 + 1;
      if subRec.None? {
        baseItems := baseItems + [Entry(id, items[id].name, count, -1)];
        w := Buy(w0, Entry(id, items[id].name, count, -1));
        ReachBuy(recipes, items, recId, w0, w, steps0, steps, id);
      } else if id in index {
        ReachIndexed(recipes, items, recId, w0, steps0, id);
        var c := index[id];
        crafts := Bump(crafts, c, count);
        w := Again(w0, c, id, count);
        ReachAgain(recipes, items, recId, w0, w, steps0, steps, id);
      } else {
        ChoiceIsStored(recipes, items, id, subRec.value);
        layer := layer + 1;
        crafts := crafts + [Entry(id, items[id].name, count, layer)];
        index := index[id := layer];
        queue := queue + [subRec.value.id];
        w := Discover(w0, Entry(id, items[id].name, count, layer), subRec.value.id);
        assert w.queued[|w.processed| + 1..] == w0.queued[|w0.processed| + 1..] + [subRec.value.id];
        ReachDiscover(recipes, items, recId, w0, w, steps0, steps, id, subRec.value);
      }
    }

    /** `Price`: for every item of the race whose name the pattern matches
        (`matches` stands for the compiled regular expression's MatchString)
        and every craft type of CraftTypeToName with a recipe for it, one
        line with the price of that recipe; the reasons of the "<N/A>" lines
        make the hint. With no line the reply says nothing was found. */
    method Price(cmd: Input.Command, matches: (string, string) -> bool) returns (reply: Reply)
      requires RaceReady(db, cmd.race)
      ensures reply.Prices? || reply.NoItemsFound?
      ensures reply.NoItemsFound? <==> forall id, ct :: !PriceWanted(db, cmd.race, cmd.item, matches, id, ct)
      ensures reply.NoItemsFound? ==> reply.pattern == cmd.item
      ensures reply.Prices? ==>
        && AllPriced(db, cmd.race, cmd.item, matches, reply.lines)
        && (forall id, ct :: PriceWanted(db, cmd.race, cmd.item, matches, id, ct) ==> Listed(reply.lines, id, ct))
        && Distinct(reply.lines)
        && reply.missing == LineReasons(reply.lines)
    {
      var items := db.ItemsOf(cmd.race);
      assert ReadyBucket(db, cmd.race, Handicraft);
      ItemsKeyedById(db, cmd.race, Handicraft);
      var lines: seq<PriceLine> := [];
      var naReasons := Zero;
      var rest := items.Keys;
      while rest != {}
        invariant rest <= items.Keys
        invariant AllPriced(db, cmd.race, cmd.item, matches, lines)
        invariant forall l :: l in lines ==> l.itemId !in rest
        invariant forall id, ct :: id !in rest && PriceWanted(db, cmd.race, cmd.item, matches, id, ct) ==> Listed(lines, id, ct)
        invariant Distinct(lines)
        invariant naReasons.naReasons == LineReasons(lines)
        decreases rest
      {
        var k :| k in rest;
        var item := items[k];
        if matches(cmd.item, item.name) {
          lines, naReasons := PriceItem(cmd.race, item, cmd.item, matches, lines, naReasons);
        } else {
          assert forall ct :: !PriceWanted(db, cmd.race, cmd.item, matches, k, ct);
        }
        rest := rest - {k};
      }
      AllPricedWanted(db, cmd.race, cmd.item, matches, lines);
      if lines == [] {
        reply := NoItemsFound(cmd.item);
      } else {
        reply := Prices(lines, naReasons.naReasons);
      }
    }

    /** The inner loop of Price for one item whose name matches: a line
        for every craft type of CraftTypeToName with a recipe for the item
        is appended to `lines0`, and the reasons of each "<N/A>" line are
        added to `acc0` with Plus. */
    method PriceItem(race: Race, item: Item, ghost pattern: string, ghost matches: (string, string) -> bool,
                     lines0: seq<PriceLine>, acc0: TheInt)
      returns (lines: seq<PriceLine>, acc: TheInt)
      requires RaceReady(db, race)
      requires item.id in db.ItemsOf(race) && db.ItemsOf(race)[item.id] == item && matches(pattern, item.name)
      requires AllPriced(db, race, pattern, matches, lines0) && Distinct(lines0)
      requires forall l :: l in lines0 ==> l.itemId != item.id
      requires acc0.naReasons == LineReasons(lines0)
      ensures AllPriced(db, race, pattern, matches, lines) && Distinct(lines)
      ensures acc.naReasons == LineReasons(lines)
      ensures forall l :: l in lines ==> l in lines0 || l.itemId == item.id
      ensures forall id, ct :: Listed(lines0, id, ct) ==> Listed(lines, id, ct)
      ensures forall ct :: Offered(db, race, item.id, ct) ==> Listed(lines, item.id, ct)
    {
      var cts := CraftTypeToName.Keys;
      lines, acc := lines0, acc0;
      ItemProgressStart(db, race, item.id, lines0);
      while cts != {}
        invariant cts <= CraftTypeToName.Keys
        invariant AllPriced(db, race, pattern, matches, lines) && Distinct(lines)
        invariant acc.naReasons == LineReasons(lines)
        invariant ItemProgress(db, race, item.id, lines0, lines, cts)
        decreases cts
      {
        var ct :| ct in cts;
        var found := PriceLineOf(race, ct, item, pattern, matches);
        if found.Some? {
          var line := found.value;
          LineReasonsSnoc(lines, line);
          acc := AddReasons(acc, line.body);
          AllPricedSnoc(db, race, pattern, matches, lines, line);
          ItemProgressAdd(db, race, item.id, lines0, lines, cts, line);
          lines := lines + [line];
        } else {
          ItemProgressSkip(db, race, item.id, lines0, lines, cts, ct);
        }
        cts := cts - {ct};
      }
    }

    /** One pass of the inner loop of Price: no line when RecipeByItem finds
        no recipe of craft type `ct` for the item, otherwise the line with
        the recipe's level and the price priceByRecipe gives it. */
    method PriceLineOf(race: Race, ct: CraftType, item: Item, ghost pattern: string, ghost matches: (string, string) -> bool)
      returns (found: Option<PriceLine>)
      requires ReadyBucket(db, race, ct)
      requires item.id in db.ItemsOf(race) && db.ItemsOf(race)[item.id] == item && matches(pattern, item.name)
      ensures found.None? <==> !HasProducer(db.BucketOf(race, ct), item.id)
      ensures found.Some? ==> found.value.itemId == item.id && found.value.craft == ct
      ensures found.Some? && ct in CraftTypeToName ==> AllPriced(db, race, pattern, matches, [found.value])
    {
      var rec := db.RecipeByItem(race, ct, item.id);
      if rec.None? {
        return None;
      }
      var bucket := db.BucketOf(race, ct);
      ghost var rank :| RankedBy(bucket, rank);
      ChoiceIsStored(bucket, db.ItemsOf(race), item.id, rec.value);
      var price := PriceByRecipe(race, ct, rec.value.id, rank);
      var line := Section(ct, rec.value.level, item.id, item.name, price);
      if ct in CraftTypeToName {
        PriceLineCorrect(db, race, pattern, matches, line, rec.value, rank);
      }
      return Some(line);
    }

    /** `Help`: for every item of the race whose name is exactly the one
        asked for and every craft type of CraftTypeToName with a recipe for
        it, one section with the plan gatherIngridients makes. With no
        section the reply says the item was not found. */
    method Help(cmd: Input.Command) returns (reply: Reply)
      requires forall ct :: ct in CraftTypeToName ==> WellFormed(db.BucketOf(cmd.race, ct), db.ItemsOf(cmd.race))
      ensures reply.Manual? || reply.ItemNotFound?
      ensures reply.ItemNotFound? <==> forall id, ct :: !HelpWanted(db, cmd.race, cmd.item, id, ct)
      ensures reply.ItemNotFound? ==> reply.item == cmd.item
      ensures reply.Manual? ==>
        && AllManuals(db, cmd.race, cmd.item, reply.sections)
        && (forall id, ct :: HelpWanted(db, cmd.race, cmd.item, id, ct) ==> Listed(reply.sections, id, ct))
        && Distinct(reply.sections)
    {
      var items := db.ItemsOf(cmd.race);
      ItemsKeyedById(db, cmd.race, Handicraft);
      var sections: seq<HelpSection> := [];
      var rest := items.Keys;
      while rest != {}
        invariant rest <= items.Keys
        invariant AllManuals(db, cmd.race, cmd.item, sections)
        invariant forall s :: s in sections ==> s.itemId !in rest
        invariant forall id, ct :: id !in rest && HelpWanted(db, cmd.race, cmd.item, id, ct) ==> Listed(sections, id, ct)
        invariant Distinct(sections)
        decreases rest
      {
        var k :| k in rest;
        var item := items[k];
        if item.name == cmd.item {
          sections := HelpItem(cmd.race, item, sections);
        } else {
          assert forall ct :: !HelpWanted(db, cmd.race, cmd.item, k, ct);
        }
        rest := rest - {k};
      }
      AllManualsWanted(db, cmd.race, cmd.item, sections);
      if sections == [] {
        reply := ItemNotFound(cmd.item);
      } else {
        reply := Manual(sections);
      }
    }

    /** The inner loop of Help for one item with the requested name: a
        section for every craft type of CraftTypeToName with a recipe for
        the item is appended to `sections0`. */
    method HelpItem(race: Race, item: Item, sections0: seq<HelpSection>) returns (sections: seq<HelpSection>)
      requires forall ct :: ct in CraftTypeToName ==> WellFormed(db.BucketOf(race, ct), db.ItemsOf(race))
      requires item.id in db.ItemsOf(race) && db.ItemsOf(race)[item.id] == item
      requires AllManuals(db, race, item.name, sections0) && Distinct(sections0)
      requires forall s :: s in sections0 ==> s.itemId != item.id
      ensures AllManuals(db, race, item.name, sections) && Distinct(sections)
      ensures forall s :: s in sections ==> s in sections0 || s.itemId == item.id
      ensures forall id, ct :: Listed(sections0, id, ct) ==> Listed(sections, id, ct)
      ensures forall ct :: Offered(db, race, item.id, ct) ==> Listed(sections, item.id, ct)
    {
      var cts := CraftTypeToName.Keys;
      sections := sections0;
      ItemProgressStart(db, race, item.id, sections0);
      while cts != {}
        invariant cts <= CraftTypeToName.Keys
        invariant AllManuals(db, race, item.name, sections) && Distinct(sections)
        invariant ItemProgress(db, race, item.id, sections0, sections, cts)
        decreases cts
      {
        var ct :| ct in cts;
        var found := HelpSectionOf(race, ct, item);
        if found.Some? {
          var section := found.value;
          AllManualsSnoc(db, race, item.name, sections, section);
          ItemProgressAdd(db, race, item.id, sections0, sections, cts, section);
          sections := sections + [section];
        } else {
          ItemProgressSkip(db, race, item.id, sections0, sections, cts, ct);
        }
        cts := cts - {ct};
      }
    }

    /** One pass of the inner loop of Help: no section when RecipeByItem
        finds no recipe of craft type `ct` for the item, otherwise the
        section with the recipe's level and the plan gatherIngridients
        makes for it. */
    method HelpSectionOf(race: Race, ct: CraftType, item: Item) returns (found: Option<HelpSection>)
      requires WellFormed(db.BucketOf(race, ct), db.ItemsOf(race))
      requires item.id in db.ItemsOf(race) && db.ItemsOf(race)[item.id] == item
      ensures found.None? <==> !HasProducer(db.BucketOf(race, ct), item.id)
      ensures found.Some? ==> found.value.itemId == item.id && found.value.craft == ct
      ensures found.Some? && ct in CraftTypeToName ==> AllManuals(db, race, item.name, [found.value])
    {
      var rec := db.RecipeByItem(race, ct, item.id);
      if rec.None? {
        return None;
      }
      ChoiceIsStored(db.BucketOf(race, ct), db.ItemsOf(race), item.id, rec.value);
      var plan, processed := GatherIngredients(race, ct, rec.value.id);
      var section := Section(ct, rec.value.level, item.id, item.name, plan);
      if ct in CraftTypeToName {
        HelpSectionCorrect(db, race, section, rec.value, processed);
      }
      return Some(section);
    }

    /** The switch of Work for a command other than Close: Set, Price or
        Help, whichever the action names. */
    method Serve(cmd: Input.Command, matches: (string, string) -> bool) returns (reply: Reply)
      requires Ready(db) && cmd.action != Input.Close
      modifies db
      ensures Answers(cmd, reply)
      ensures Ready(db) && db.recipes == old(db.recipes) && OnlyPricesDiffer(old(db.items), db.items)
      ensures cmd.action != Input.Set ==> db.items == old(db.items)
      ensures db.curState == old(db.curState) && db.saveNeeded == (old(db.saveNeeded) || reply.PriceSet?)
      ensures cmd.action == Input.Set ==>
        (reply.SetNotFound? <==>
          forall k :: k in old(db.ItemsOf(cmd.race)) ==> !NameMatches(old(db.ItemsOf(cmd.race))[k].name, cmd.item))
      ensures reply.PriceSet? ==>
        && cmd.race in old(db.items)
        && reply.itemId in old(db.items)[cmd.race]
        && old(db.items)[cmd.race][reply.itemId].id == reply.itemId
        && NameMatches(old(db.items)[cmd.race][reply.itemId].name, cmd.item)
        && db.items == WithPrice(old(db.items), cmd.race, reply.itemId, reply.price)
      ensures cmd.action == Input.Price ==>
        (reply.NoItemsFound? <==> forall id, ct :: !PriceWanted(db, cmd.race, cmd.item, matches, id, ct))
      ensures cmd.action == Input.Price && reply.Prices? ==>
        && AllPriced(db, cmd.race, cmd.item, matches, reply.lines)
        && (forall id, ct :: PriceWanted(db, cmd.race, cmd.item, matches, id, ct) ==> Listed(reply.lines, id, ct))
        && Distinct(reply.lines)
        && reply.missing == LineReasons(reply.lines)
      ensures cmd.action == Input.Help ==>
        (reply.ItemNotFound? <==> forall id, ct :: !HelpWanted(db, cmd.race, cmd.item, id, ct))
      ensures cmd.action == Input.Help && reply.Manual? ==>
        && AllManuals(db, cmd.race, cmd.item, reply.sections)
        && (forall id, ct :: HelpWanted(db, cmd.race, cmd.item, id, ct) ==> Listed(reply.sections, id, ct))
        && Distinct(reply.sections)
    {
      match cmd.action {
        case Set =>
          ghost var before := db.items;
          assert ReadyBucket(db, cmd.race, Handicraft);
          reply := Set(cmd);
          forall race, ct | ct in CraftTypeToName
            ensures WellFormed(db.BucketOf(race, ct), if race in before then before[race] else map[])
            ensures Acyclic(db.BucketOf(race, ct))
          {
            assert db.BucketOf(race, ct) == old(db.BucketOf(race, ct));
            assert old(ReadyBucket(db, race, ct));
          }
          ReadyKeptByPrices(db, before);
        case Price =>
          assert RaceReady(db, cmd.race);
          reply := Price(cmd, matches);
          assert OnlyPricesDiffer(db.items, db.items);
        case Help =>
          forall ct | ct in CraftTypeToName ensures WellFormed(db.BucketOf(cmd.race, ct), db.ItemsOf(cmd.race)) {
            assert ReadyBucket(db, cmd.race, ct);
          }
          reply := Help(cmd);
          assert OnlyPricesDiffer(db.items, db.items);
      }
    }

    /** `Work`: commands are served one at a time in the order they arrive,
        each reply going to the command's own channel; Close is answered and
        ends the loop. Only Set changes the catalog, and only its prices. */
    method Work(cmds: seq<Input.Command>, matches: (string, string) -> bool) returns (deliveries: seq<Delivery>)
      requires Ready(db)
      modifies db
      ensures |deliveries| == Served(cmds)
      ensures forall i :: 0 <= i < |deliveries| ==> deliveries[i].out == cmds[i].out && Answers(cmds[i], deliveries[i].reply)
      ensures Ready(db) && db.recipes == old(db.recipes) && OnlyPricesDiffer(old(db.items), db.items)
      ensures (forall i :: 0 <= i < |deliveries| ==> cmds[i].action != Input.Set) ==> db.items == old(db.items)
      ensures db.curState == old(db.curState) && db.saveNeeded == (old(db.saveNeeded) || SomePriceSet(deliveries))
    {
      deliveries := [];
      var i := 0;
      while i < |cmds|
        invariant i <= |cmds| && |deliveries| == i
        invariant forall j :: 0 <= j < i ==> cmds[j].action != Input.Close
        invariant forall j :: 0 <= j < i ==> deliveries[j].out == cmds[j].out && Answers(cmds[j], deliveries[j].reply)
        invariant Ready(db) && db.recipes == old(db.recipes) && OnlyPricesDiffer(old(db.items), db.items)
        invariant (forall j :: 0 <= j < i ==> cmds[j].action != Input.Set) ==> db.items == old(db.items)
        invariant db.curState == old(db.curState) && db.saveNeeded == (old(db.saveNeeded) || SomePriceSet(deliveries))
        decreases |cmds| - i
      {
        var cmd := cmds[i];
        if cmd.action == Input.Close {
          SomePriceSetSnoc(deliveries, Delivery(cmd.out, Bye));
          deliveries := deliveries + [Delivery(cmd.out, Bye)];
          ServedUpTo(cmds, i);
          return;
        }
        ghost var before := db.items;
        var reply := Serve(cmd, matches);
        OnlyPricesDifferTransitive(old(db.items), before, db.items);
        SomePriceSetSnoc(deliveries, Delivery(cmd.out, reply));
        deliveries := deliveries + [Delivery(cmd.out, reply)];
        i := i + 1;
      }
      ServedUpTo(cmds, i);
    }
  }
}
