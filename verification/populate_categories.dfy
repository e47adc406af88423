/** The `populate_categories` management command
    (myapp/management/commands/populate_categories.py): a fixed list of
    computer-part categories, each created unless a category of that name
    already exists. */
module PopulateCategories {
  import opened Seqs
  import opened Tables
  import opened Carts
  import opened Store

  /** One entry of the command's list: the name looked up and the
      description a new row gets. */
  datatype CategorySeed = CategorySeed(name: string, description: string)

  /** The category table together with its next key. */
  datatype CategoryTable = CategoryTable(rows: seq<Category>, next: nat)

  const ComputerCategories: seq<CategorySeed> := [
    CategorySeed("Processors (CPU)", "Intel, AMD processors and CPU coolers"),
    CategorySeed("Graphics Cards (GPU)", "NVIDIA, AMD graphics cards"),
    CategorySeed("Motherboards", "ATX, Micro-ATX, Mini-ITX motherboards"),
    CategorySeed("Memory (RAM)", "DDR4, DDR5 RAM modules"),
    CategorySeed("Storage (SSD/HDD)", "Solid State Drives, Hard Disk Drives"),
    CategorySeed("Power Supply (PSU)", "Modular and non-modular PSUs"),
    CategorySeed("Computer Cases", "Mid-tower, Full-tower, Mini cases"),
    CategorySeed("Cooling Systems", "Air coolers, liquid cooling, case fans"),
    CategorySeed("Monitors", "LCD, LED, Gaming monitors"),
    CategorySeed("Keyboards", "Mechanical, membrane, gaming keyboards"),
    CategorySeed("Mice", "Gaming, wireless, wired mice"),
    CategorySeed("Headsets & Audio", "Gaming headsets, speakers"),
    CategorySeed("Networking", "Routers, WiFi adapters, network cards"),
    CategorySeed("Cables & Adapters", "HDMI, DisplayPort, USB cables"),
    CategorySeed("Peripherals", "Webcams, microphones, accessories")
  ]

  function CategoryName(c: Category): string { c.name }

  /** The first row named `name` (`Category.objects.get(name=...)`), or -1. */
  function CategoryNamed(rows: seq<Category>, name: string): (k: int)
    ensures -1 <= k < |rows|
    ensures k >= 0 ==> rows[k].name == name
    ensures k < 0 <==> forall i :: 0 <= i < |rows| ==> rows[i].name != name
  {
    if rows == [] then -1
    else if rows[0].name == name then 0
    else
      var k := CategoryNamed(rows[1..], name);
      if k < 0 then -1 else k + 1
  }

  /** `Category.objects.get_or_create(name=..., defaults={'description': ...})`:
      nothing when a row of that name exists, else a new row under the next
      key with the seed's name and description. Afterwards the name has a row. */
  function GetOrCreate(t: CategoryTable, seed: CategorySeed, slugOf: string -> string): (r: CategoryTable)
    ensures t.rows <= r.rows
    ensures CategoryNamed(r.rows, seed.name) >= 0
    ensures CategoryNamed(t.rows, seed.name) >= 0 ==> r == t
    ensures CategoryNamed(t.rows, seed.name) < 0 ==>
      && |r.rows| == |t.rows| + 1 && r.next == t.next + 1
      && r.rows[|t.rows|].id == t.next && r.rows[|t.rows|].name == seed.name
      && r.rows[|t.rows|].description == seed.description
  {
    if CategoryNamed(t.rows, seed.name) >= 0 then t
    else
      var c := Category(t.next, seed.name, slugOf(seed.name), seed.description);
      assert (t.rows + [c])[|t.rows|] == c;
      CategoryTable(t.rows + [c], t.next + 1)
  }

  /** The table after the command's loop over `seeds`: the old rows first,
      then at most one new row per seed, each under the next key. */
  function SeedCategoryRows(t: CategoryTable, seeds: seq<CategorySeed>, slugOf: string -> string): (r: CategoryTable)
    ensures t.rows <= r.rows && |r.rows| <= |t.rows| + |seeds|
    ensures r.next == t.next + (|r.rows| - |t.rows|)
  {
    if seeds == [] then t
    else GetOrCreate(SeedCategoryRows(t, seeds[..|seeds| - 1], slugOf), seeds[|seeds| - 1], slugOf)
  }

  /** The listed names that have no category in `rows`. */
  function NewNames(rows: seq<Category>, seeds: seq<CategorySeed>): set<string>
  {
    set j | 0 <= j < |seeds| && CategoryNamed(rows, seeds[j].name) < 0 :: seeds[j].name
  }

  lemma NewNamesSnoc(rows: seq<Category>, seeds: seq<CategorySeed>)
    requires seeds != []
    ensures var s := seeds[|seeds| - 1];
      NewNames(rows, seeds) == NewNames(rows, seeds[..|seeds| - 1]) + (if CategoryNamed(rows, s.name) < 0 then {s.name} else {})
  {
    var init := seeds[..|seeds| - 1];
    forall j | 0 <= j < |init| ensures init[j] == seeds[j] { }
  }

  /** A name has a row after appending `c` if it had one before or is `c`'s. */
  lemma NamedAppend(rows: seq<Category>, c: Category, n: string)
    ensures CategoryNamed(rows + [c], n) >= 0 <==> CategoryNamed(rows, n) >= 0 || c.name == n
  {
    var both := rows + [c];
    if CategoryNamed(rows, n) >= 0 {
      assert both[CategoryNamed(rows, n)].name == n;
    }
    if c.name == n {
      assert both[|rows|].name == n;
    }
    if CategoryNamed(both, n) >= 0 {
      var k := CategoryNamed(both, n);
      if k < |rows| {
        assert rows[k].name == n;
      }
    }
  }

  /** The count of new categories: the table grows by exactly the number of
      different listed names it lacked, and afterwards a name has a row if
      and only if it had one before or is one of those. */
  lemma {:induction false} SeedCategoriesCount(t: CategoryTable, seeds: seq<CategorySeed>, slugOf: string -> string)
    ensures var r := SeedCategoryRows(t, seeds, slugOf);
      && |r.rows| == |t.rows| + |NewNames(t.rows, seeds)|
      && forall n :: CategoryNamed(r.rows, n) >= 0 <==> CategoryNamed(t.rows, n) >= 0 || n in NewNames(t.rows, seeds)
  {
    if seeds == [] {
      assert NewNames(t.rows, seeds) == {};
    } else {
      var init := seeds[..|seeds| - 1];
      var s := seeds[|seeds| - 1];
      SeedCategoriesCount(t, init, slugOf);
      NewNamesSnoc(t.rows, seeds);
      var m := SeedCategoryRows(t, init, slugOf);
      if CategoryNamed(m.rows, s.name) >= 0 {
        assert CategoryNamed(t.rows, s.name) >= 0 || s.name in NewNames(t.rows, init);
        assert NewNames(t.rows, seeds) == NewNames(t.rows, init);
      } else {
        SeedCategoryCountStep(t, m, s, NewNames(t.rows, init), slugOf);
      }
    }
  }

  /** One seed whose name has no row yet: it becomes one more new name. */
  lemma SeedCategoryCountStep(t: CategoryTable, m: CategoryTable, s: CategorySeed, added: set<string>, slugOf: string -> string)
    requires CategoryNamed(m.rows, s.name) < 0
    requires forall n :: CategoryNamed(m.rows, n) >= 0 <==> CategoryNamed(t.rows, n) >= 0 || n in added
    ensures s.name !in added && CategoryNamed(t.rows, s.name) < 0
    ensures var r := GetOrCreate(m, s, slugOf);
      forall n :: CategoryNamed(r.rows, n) >= 0 <==> CategoryNamed(t.rows, n) >= 0 || n in added + {s.name}
  {
    var c := Category(m.next, s.name, slugOf(s.name), s.description);
    var r := GetOrCreate(m, s, slugOf);
    assert r.rows == m.rows + [c];
    forall n ensures CategoryNamed(r.rows, n) >= 0 <==> CategoryNamed(m.rows, n) >= 0 || n == s.name {
      NamedAppend(m.rows, c, n);
    }
  }

  /** Existing rows are kept in place; each new row takes the next key in
      turn and is named after a seed, with that seed's description and the
      slug of its name. */
  lemma {:induction false} SeedCategoriesGrow(t: CategoryTable, seeds: seq<CategorySeed>, slugOf: string -> string)
    ensures var r := SeedCategoryRows(t, seeds, slugOf);
      && t.rows <= r.rows
      && r.next == t.next + (|r.rows| - |t.rows|)
      && forall k :: |t.rows| <= k < |r.rows| ==>
           && r.rows[k].id == t.next + (k - |t.rows|)
           && r.rows[k].slug == slugOf(r.rows[k].name)
           && exists j :: 0 <= j < |seeds| && r.rows[k].name == seeds[j].name && r.rows[k].description == seeds[j].description
  {
    if seeds != [] {
      var init := seeds[..|seeds| - 1];
      SeedCategoriesGrow(t, init, slugOf);
      var m := SeedCategoryRows(t, init, slugOf);
      var r := GetOrCreate(m, seeds[|seeds| - 1], slugOf);
      forall k | |t.rows| <= k < |r.rows|
        ensures exists j :: 0 <= j < |seeds| && r.rows[k].name == seeds[j].name && r.rows[k].description == seeds[j].description
      {
        if k < |m.rows| {
          var j :| 0 <= j < |init| && m.rows[k].name == init[j].name && m.rows[k].description == init[j].description;
          assert seeds[j] == init[j];
        } else {
          assert r.rows[k].name == seeds[|seeds| - 1].name;
        }
      }
    }
  }

  /** The command keeps the category keys valid. */
  lemma {:induction false} SeedCategoriesValid(t: CategoryTable, seeds: seq<CategorySeed>, slugOf: string -> string)
    requires CategoriesValid(t.rows, t.next)
    ensures var r := SeedCategoryRows(t, seeds, slugOf); CategoriesValid(r.rows, r.next)
  {
    if seeds != [] {
      var m := SeedCategoryRows(t, seeds[..|seeds| - 1], slugOf);
      SeedCategoriesValid(t, seeds[..|seeds| - 1], slugOf);
      if CategoryNamed(m.rows, seeds[|seeds| - 1].name) < 0 {
        CategoriesAppendValid(m.rows, m.next, Category(m.next, seeds[|seeds| - 1].name, slugOf(seeds[|seeds| - 1].name), seeds[|seeds| - 1].description));
      }
    }
  }

  /** Afterwards every listed name has a category. */
  lemma SeedCategoriesPresent(t: CategoryTable, seeds: seq<CategorySeed>, slugOf: string -> string)
    ensures var r := SeedCategoryRows(t, seeds, slugOf);
      forall j :: 0 <= j < |seeds| ==> CategoryNamed(r.rows, seeds[j].name) >= 0
  {
    SeedCategoriesCount(t, seeds, slugOf);
    forall j | 0 <= j < |seeds| && CategoryNamed(t.rows, seeds[j].name) < 0
      ensures seeds[j].name in NewNames(t.rows, seeds)
    {
    }
  }

  /** A name that has a row keeps it when rows are appended. */
  lemma NamedGrows(a: seq<Category>, b: seq<Category>, n: string)
    requires a <= b && CategoryNamed(a, n) >= 0
    ensures CategoryNamed(b, n) >= 0
  {
    assert b[CategoryNamed(a, n)] == a[CategoryNamed(a, n)];
  }

  /** When every listed name already has a category, the loop changes nothing. */
  lemma {:induction false} SeedCategoriesNoop(t: CategoryTable, seeds: seq<CategorySeed>, slugOf: string -> string)
    requires forall j :: 0 <= j < |seeds| ==> CategoryNamed(t.rows, seeds[j].name) >= 0
    ensures SeedCategoryRows(t, seeds, slugOf) == t
  {
    if seeds != [] {
      SeedCategoriesNoop(t, seeds[..|seeds| - 1], slugOf);
    }
  }

  /** Running the command twice has the effect of running it once. */
  lemma SeedCategoriesIdempotent(t: CategoryTable, seeds: seq<CategorySeed>, slugOf: string -> string)
    ensures var r := SeedCategoryRows(t, seeds, slugOf); SeedCategoryRows(r, seeds, slugOf) == r
  {
    SeedCategoriesPresent(t, seeds, slugOf);
    SeedCategoriesNoop(SeedCategoryRows(t, seeds, slugOf), seeds, slugOf);
  }

  /** The command never creates a second category with an existing name. */
  lemma {:induction false} SeedCategoriesDistinctNames(t: CategoryTable, seeds: seq<CategorySeed>, slugOf: string -> string)
    requires DistinctBy(t.rows, CategoryName)
    ensures DistinctBy(SeedCategoryRows(t, seeds, slugOf).rows, CategoryName)
  {
    if seeds != [] {
      var m := SeedCategoryRows(t, seeds[..|seeds| - 1], slugOf);
      SeedCategoriesDistinctNames(t, seeds[..|seeds| - 1], slugOf);
      var s := seeds[|seeds| - 1];
      if CategoryNamed(m.rows, s.name) < 0 {
        AppendDistinctBy(m.rows, Category(m.next, s.name, slugOf(s.name), s.description), CategoryName);
      }
    }
  }

  /** Seeds whose names are new and pairwise different are all created. */
  lemma {:induction false} SeedCategoriesAllNew(t: CategoryTable, seeds: seq<CategorySeed>, slugOf: string -> string)
    requires forall j :: 0 <= j < |seeds| ==> CategoryNamed(t.rows, seeds[j].name) < 0
    requires forall i, j :: 0 <= i < j < |seeds| ==> seeds[i].name != seeds[j].name
    ensures |SeedCategoryRows(t, seeds, slugOf).rows| == |t.rows| + |seeds|
  {
    if seeds != [] {
      var init := seeds[..|seeds| - 1];
      var s := seeds[|seeds| - 1];
      SeedCategoriesAllNew(t, init, slugOf);
      SeedCategoriesGrow(t, init, slugOf);
      var m := SeedCategoryRows(t, init, slugOf);
      forall k | 0 <= k < |m.rows| ensures m.rows[k].name != s.name {
        if k < |t.rows| {
          assert m.rows[k] == t.rows[k];
        } else {
          var j :| 0 <= j < |init| && m.rows[k].name == init[j].name && m.rows[k].description == init[j].description;
          assert seeds[j] == init[j];
        }
      }
    }
  }

  /** On an empty table the command creates all fifteen categories. */
  lemma FifteenCategories(next: nat, slugOf: string -> string)
    ensures |SeedCategoryRows(CategoryTable([], next), ComputerCategories, slugOf).rows| == 15
  {
    assert forall i, j :: 0 <= i < j < |ComputerCategories| ==> ComputerCategories[i].name != ComputerCategories[j].name;
    SeedCategoriesAllNew(CategoryTable([], next), ComputerCategories, slugOf);
  }

  /** `get_or_create` on the shop's category table. */
  method GetOrCreateRow(shop: Shop, seed: CategorySeed)
    requires shop.Valid()
    modifies shop`categories, shop`nextCategoryId
    ensures shop.Valid()
    ensures CategoryTable(shop.categories, shop.nextCategoryId)
         == GetOrCreate(CategoryTable(old(shop.categories), old(shop.nextCategoryId)), seed, shop.slugOf)
  {
    if CategoryNamed(shop.categories, seed.name) < 0 {
      var c := Category(shop.nextCategoryId, seed.name, shop.slugOf(seed.name), seed.description);
      CategoriesAppendValid(shop.categories, shop.nextCategoryId, c);
      shop.categories := shop.categories + [c];
      shop.nextCategoryId := shop.nextCategoryId + 1;
    }
  }

  /** The command's loop, applied to the shop's category table. */
  method SeedCategories(shop: Shop, seeds: seq<CategorySeed>)
    requires shop.Valid()
    modifies shop`categories, shop`nextCategoryId
    ensures shop.Valid()
    ensures CategoryTable(shop.categories, shop.nextCategoryId)
         == SeedCategoryRows(CategoryTable(old(shop.categories), old(shop.nextCategoryId)), seeds, shop.slugOf)
  {
    var start := CategoryTable(shop.categories, shop.nextCategoryId);
    var i := 0;
    while i < |seeds|
      invariant 0 <= i <= |seeds|
      invariant shop.Valid()
      invariant CategoryTable(shop.categories, shop.nextCategoryId) == SeedCategoryRows(start, seeds[..i], shop.slugOf)
    {
      assert seeds[..i + 1][..i] == seeds[..i] && seeds[..i + 1][i] == seeds[i];
      GetOrCreateRow(shop, seeds[i]);
      assert SeedCategoryRows(start, seeds[..i + 1], shop.slugOf)
          == GetOrCreate(SeedCategoryRows(start, seeds[..i], shop.slugOf), seeds[i], shop.slugOf);
      i := i + 1;
    }
    assert seeds[..i] == seeds;
  }
}
