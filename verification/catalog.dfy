/**
 * The catalog of database/entity.go and database/database.go: items and
 * recipes partitioned by race and craft type, the lifecycle state and the
 * "save needed" flag, and the choice of the canonical recipe of an item.
 */
module Catalog {
  import opened Cost
  import opened Wrappers

  datatype Race = Elyos | Asmodian

  datatype CraftType = Handicraft | Weapon | Armor | Tailor | Alchemy | Cooking | Morph

  datatype State = Created | Scrapped | Named

  /** The races the catalog is partitioned by. */
  const Races: seq<Race> := [Elyos, Asmodian]

  /** The craft types that get a recipe bucket; Morph is not among them. */
  const Crafts: seq<CraftType> := [Handicraft, Weapon, Armor, Tailor, Alchemy, Cooking]

  /** The integer a race stands for (`iota` order). The constants Elyos = 0
      and Asmodian = 1 of database/entity.go are these codes, and each code
      is the race's position in Races. */
  function RaceCode(r: Race): (c: nat)
    ensures c < |Races| && Races[c] == r
  {
    match r
    case Elyos => 0
    case Asmodian => 1
  }

  /** The integer a craft type stands for (`iota` order); every craft type
      but Morph sits at its own code in Crafts. */
  function CraftCode(t: CraftType): (c: nat)
    ensures c <= |Crafts|
    ensures c < |Crafts| <==> t != Morph
    ensures c < |Crafts| ==> Crafts[c] == t
  {
    match t
    case Handicraft => 0
    case Weapon => 1
    case Armor => 2
    case Tailor => 3
    case Alchemy => 4
    case Cooking => 5
    case Morph => 6
  }

  /** An item; its price is a cost value that Set replaces. */
  datatype Item = Item(name: string, id: string, price: TheInt)

  /** A recipe: one execution yields `count` units of item `itemId` and
      consumes `items[id]` units of each ingredient `id`. Being a map, the
      ingredient bill names each ingredient at most once. */
  datatype Recipe = Recipe(name: string, id: string, itemId: string, level: int, count: int, items: map<string, int>)

  /** The recipes of one (race, craft type) pair, by recipe ID. */
  type Bucket = map<string, Recipe>

  /** The items of one race, by item ID. */
  type ItemMap = map<string, Item>

  /** What json.Marshal writes and json.Unmarshal reads back. */
  datatype Snapshot = Snapshot(
    recipes: map<Race, map<CraftType, Bucket>>,
    items: map<Race, ItemMap>,
    curState: State,
    saveNeeded: bool)

  /** Some recipe of the bucket produces `itemId`. */
  ghost predicate HasProducer(bucket: Bucket, itemId: string)
  {
    exists k :: k in bucket && bucket[k].itemId == itemId
  }

  /** What RecipeByItem may return, whatever the map iteration order: nothing
      exactly when no recipe of the bucket produces the item; otherwise a
      recipe of the bucket that produces it, with Count 1 when such a recipe
      exists, and with a Count no larger than that of any producer when none
      has Count 1. Ties are not resolved: any such recipe will do. */
  ghost predicate IsRecipeChoice(bucket: Bucket, itemId: string, res: Option<Recipe>)
  {
    match res
    case None => !HasProducer(bucket, itemId)
    case Some(r) =>
      && r in bucket.Values
      && r.itemId == itemId
      && ((exists k :: k in bucket && bucket[k].itemId == itemId && bucket[k].count == 1) ==> r.count == 1)
      && ((forall k :: k in bucket && bucket[k].itemId == itemId ==> bucket[k].count != 1) ==>
            forall k :: k in bucket && bucket[k].itemId == itemId ==> r.count <= bucket[k].count)
  }

  class Database {
    var recipes: map<Race, map<CraftType, Bucket>>
    var items: map<Race, ItemMap>
    var curState: State
    var saveNeeded: bool

    /** `d.Recipes[race][ct]`; a missing key reads as an empty Go map. */
    function BucketOf(race: Race, ct: CraftType): Bucket
      reads this
    {
      if race in recipes && ct in recipes[race] then recipes[race][ct] else map[]
    }

    /** `d.Items[race]`; a missing key reads as an empty Go map. */
    function ItemsOf(race: Race): ItemMap
      reads this
    {
      if race in items then items[race] else map[]
    }

    /** `New()`: an empty item map for every race and an empty recipe map
        for every race and every craft type of Crafts (not Morph). */
    constructor New()
      ensures curState == Created && !saveNeeded
      ensures forall r: Race :: r in items && items[r] == map[]
      ensures forall r: Race :: r in recipes
      ensures forall r: Race, t: CraftType :: t in recipes[r] <==> t in Crafts
      ensures forall r: Race, t: CraftType :: t in recipes[r] ==> recipes[r][t] == map[]
    {
      items := map[];
      recipes := map[];
      curState := Created;
      saveNeeded := false;
      new;
      var i := 0;
      while i < |Races|
        invariant 0 <= i <= |Races|
        invariant curState == Created && !saveNeeded
        invariant forall r: Race :: r in items <==> r in Races[..i]
        invariant forall r: Race :: r in recipes <==> r in Races[..i]
        invariant forall r :: r in items ==> items[r] == map[]
        invariant forall r, t :: r in recipes ==> (t in recipes[r] <==> t in Crafts)
        invariant forall r, t :: r in recipes && t in recipes[r] ==> recipes[r][t] == map[]
      {
        var r := Races[i];
        recipes := recipes[r := map[]];
        items := items[r := map[]];
        var j := 0;
        while j < |Crafts|
          invariant 0 <= j <= |Crafts|
          invariant curState == Created && !saveNeeded
          invariant forall r': Race :: r' in items <==> r' in Races[..i + 1]
          invariant forall r': Race :: r' in recipes <==> r' in Races[..i + 1]
          invariant forall r' :: r' in items ==> items[r'] == map[]
          invariant forall r', t :: r' in recipes && r' != r ==> (t in recipes[r'] <==> t in Crafts)
          invariant forall t :: t in recipes[r] <==> t in Crafts[..j]
          invariant forall r', t :: r' in recipes && t in recipes[r'] ==> recipes[r'][t] == map[]
        {
          recipes := recipes[r := recipes[r][Crafts[j] := map[]]];
          j := j + 1;
        }
        i := i + 1;
      }
      assert Races[..i] == Races;
      forall r: Race ensures r in Races {
        assert Races[RaceCode(r)] == r;
      }
    }

    /** `NewFromJson(in)`: the decoded snapshot, with SaveNeeded cleared
        whatever the snapshot says. */
    constructor FromJson(snap: Snapshot)
      ensures recipes == snap.recipes && items == snap.items && curState == snap.curState
      ensures !saveNeeded
    {
      recipes := snap.recipes;
      items := snap.items;
      curState := snap.curState;
      saveNeeded := false;
    }

    /** `Save()`: clears SaveNeeded first, then marshals the whole catalog
        (so the snapshot records SaveNeeded as false). */
    method Save() returns (snap: Snapshot)
      modifies this`saveNeeded
      ensures !saveNeeded
      ensures snap == Snapshot(recipes, items, curState, false)
    {
      saveNeeded := false;
      snap := Snapshot(recipes, items, curState, saveNeeded);
    }

    /** `RecipeByItem(race, ct, itemId)`: scans the bucket in map order; the
        first producer with Count 1 is returned at once, otherwise the
        producer with the smallest Count seen. It changes nothing. */
    method RecipeByItem(race: Race, ct: CraftType, itemId: string) returns (rec: Option<Recipe>)
      ensures IsRecipeChoice(BucketOf(race, ct), itemId, rec)
    {
      var recipes := BucketOf(race, ct);
      var possibleRv: Option<Recipe> := None;
      var rest := recipes.Keys;
      while rest != {}
        invariant rest <= recipes.Keys
        invariant forall k :: k in recipes && k !in rest && recipes[k].itemId == itemId ==> recipes[k].count != 1
        invariant possibleRv.None? ==> forall k :: k in recipes && k !in rest ==> recipes[k].itemId != itemId
        invariant possibleRv.Some? ==> possibleRv.value in recipes.Values && possibleRv.value.itemId == itemId
        invariant possibleRv.Some? ==>
          forall k :: k in recipes && k !in rest && recipes[k].itemId == itemId ==> possibleRv.value.count <= recipes[k].count
        decreases rest
      {
        var k :| k in rest;
        var r := recipes[k];
        if r.itemId == itemId {
          if r.count == 1 {
            return Some(r);
          }
          if possibleRv.None? || possibleRv.value.count > r.count {
            possibleRv := Some(r);
          }
        }
        rest := rest - {k};
      }
      return possibleRv;
    }
  }

  /** Saving and reloading gives back the same items, recipes and state,
      with nothing left to save. */
  method SaveThenLoad(db: Database) returns (copy: Database)
    modifies db
    ensures fresh(copy)
    ensures copy.items == db.items && copy.recipes == db.recipes && copy.curState == db.curState
    ensures !copy.saveNeeded && !db.saveNeeded
  {
    var snap := db.Save();
    copy := new Database.FromJson(snap);
  }
}
