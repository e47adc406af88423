/** The product loop of the `populate_products` management command
    (myapp/management/commands/populate_products.py): for each group of the
    built-in catalogue, find the category whose name contains the group's
    key, then create every product whose name is not yet taken. */
module PopulateProducts {
  import opened Seqs
  import opened Text
  import opened Tables
  import opened Carts
  import opened Store
  import opened ImageLabel

  /** One catalogue entry: name, description and the price as written
      (whole pesos). Its colour only tints the picture. */
  datatype ProductSeed = ProductSeed(name: string, description: string, price: string)

  /** The catalogue's entries under one category heading. */
  datatype SeedGroup = SeedGroup(category: string, items: seq<ProductSeed>)

  /** What the command reports for a product or a group. */
  datatype Report = Created(name: string) | Skipped(name: string) | FailedItem(name: string) | CategoryMissing(category: string)

  /** The product table, the two counters and the report so far. */
  datatype Run = Run(products: seq<Product>, next: nat, created: nat, skipped: nat, log: seq<Report>)

  /** What stays fixed during a run: the vendor, the category table, the
      slug rule, the random draws (`roll(n)` is the `n`-th) and whether the
      creation report is formatted as the source writes it. */
  datatype Seeding = Seeding(vendor: UserId, categories: seq<Category>, slugOf: string -> string, roll: nat -> nat, asWritten: bool)

  /** `category_name.split('(')[0].strip()`: the heading up to its first
      parenthesis, without surrounding whitespace. A heading without a
      parenthesis, such as `Motherboards`, is only stripped. */
  function CategoryKey(heading: string): (key: string)
    ensures Trimmed(key)
    ensures '(' !in key
    ensures exists n :: 0 <= n <= |heading| && '(' !in heading[..n] && (n == |heading| || heading[n] == '(')
                        && key == Strip(heading[..n])
    ensures '(' !in heading ==> key == Strip(heading)
  {
    var b := Before(heading, '(');
    assert heading[..|b|] == b;
    Strip(b)
  }

  /** Whatever follows the first parenthesis is dropped: the key of
      `w(tag` is the stripped `w`. */
  lemma CategoryKeyDropsTag(w: string, tag: string)
    requires '(' !in w
    ensures CategoryKey(w + "(" + tag) == Strip(w)
  {
    assert w + "(" + tag == w + ("(" + tag);
    BeforeUpTo(w, "(" + tag, '(');
  }

  /** A heading such as `Memory (RAM)` loses its parenthesis and the
      space before it. */
  lemma CategoryKeySpacedTag(w: string, tag: string)
    requires Trimmed(w) && '(' !in w
    ensures CategoryKey(w + " (" + tag) == w
  {
    assert w + " (" + tag == (w + " ") + "(" + tag;
    CategoryKeyDropsTag(w + " ", tag);
    StripTrailingSpace(w);
  }

  /** `Before` stops at the first occurrence of the separator. */
  lemma {:induction false} BeforeUpTo(x: string, y: string, c: char)
    requires c !in x && y != [] && y[0] == c
    ensures Before(x + y, c) == x
  {
    if x != [] {
      assert (x + y)[1..] == x[1..] + y;
      BeforeUpTo(x[1..], y, c);
    }
  }

  lemma StripTrailingSpace(w: string)
    requires Trimmed(w)
    ensures Strip(w + " ") == w
  {
    var s := w + " ";
    assert s[..|s| - 1] == w;
    if w == [] {
      assert LeadLen(s) == 1;
    } else {
      assert LeadLen(s) == 0;
      assert TrailLen(w) == 0;
      assert TrailLen(s) == 1;
    }
  }

  /** `Category.objects.filter(name__icontains=key).first()`: the first
      category, in key order, whose name contains `key` ignoring case. */
  function FirstMatch(categories: seq<Category>, key: string): (k: int)
    ensures -1 <= k < |categories|
    ensures k >= 0 ==> ContainsIgnoringCase(categories[k].name, key)
    ensures k >= 0 ==> forall i :: 0 <= i < k ==> !ContainsIgnoringCase(categories[i].name, key)
    ensures k < 0 <==> forall i :: 0 <= i < |categories| ==> !ContainsIgnoringCase(categories[i].name, key)
  {
    if categories == [] then -1
    else if ContainsIgnoringCase(categories[0].name, key) then 0
    else
      var k := FirstMatch(categories[1..], key);
      if k < 0 then -1 else k + 1
  }

  /** Table order is key order, so `.first()` picks the matching category
      with the lowest key. */
  lemma FirstMatchLowestKey(categories: seq<Category>, next: nat, key: string)
    requires CategoriesValid(categories, next)
    ensures var k := FirstMatch(categories, key);
      k >= 0 ==> forall i :: 0 <= i < |categories| && ContainsIgnoringCase(categories[i].name, key) ==>
                   categories[k].id <= categories[i].id
  {
    var k := FirstMatch(categories, key);
    AscendingIff(categories, CategoryRowId);
    if k >= 0 {
      forall i | 0 <= i < |categories| && ContainsIgnoringCase(categories[i].name, key)
        ensures categories[k].id <= categories[i].id
      {
        if i != k {
          assert CategoryRowId(categories[k]) < CategoryRowId(categories[i]);
        }
      }
    }
  }

  /** `Product.objects.filter(name=name).exists()`. */
  function NameTaken(products: seq<Product>, name: string): (b: bool)
    ensures b <==> exists i :: 0 <= i < |products| && products[i].name == name
  {
    if products == [] then false
    else products[0].name == name || NameTaken(products[1..], name)
  }

  predicate IsDigit(c: char) { '0' <= c <= '9' }

  /** The number a string of decimal digits denotes. */
  function DigitsValue(s: string): nat
    requires forall i :: 0 <= i < |s| ==> IsDigit(s[i])
  {
    if s == [] then 0
    else
      assert IsDigit(s[|s| - 1]);
      DigitsValue(s[..|s| - 1]) * 10 + (s[|s| - 1] as int - '0' as int)
  }

  /** `Decimal(price)` for the catalogue's prices: a non-empty string of
      digits gives its value; anything else raises. */
  function ParsePrice(s: string): (r: Option<nat>)
    ensures r.Some? <==> s != [] && forall i :: 0 <= i < |s| ==> IsDigit(s[i])
  {
    if s != [] && forall i :: 0 <= i < |s| ==> IsDigit(s[i]) then Some(DigitsValue(s)) else None
  }

  /** The decimal digits of `n`, without leading zeros. */
  function Digits(n: nat): (s: string)
    ensures s != [] && forall i :: 0 <= i < |s| ==> IsDigit(s[i])
  {
    var d := [(n % 10 + '0' as int) as char];
    if n < 10 then d else Digits(n / 10) + d
  }

  /** Parsing reads back the number the digits were written from. */
  lemma {:induction false} ParseDigits(n: nat)
    ensures ParsePrice(Digits(n)) == Some(n)
  {
    var s := Digits(n);
    if n < 10 {
      assert s[..0] == [];
    } else {
      ParseDigits(n / 10);
      assert s[..|s| - 1] == Digits(n / 10);
    }
    assert DigitsValue(s) == n;
  }

  /** A price written with a thousands separator, or no price, does not parse. */
  lemma ParsePriceRejects()
    ensures ParsePrice("") == None && ParsePrice("1,299") == None
  {
    assert !IsDigit("1,299"[1]);
  }

  /** `random.randint(15, 75)`, as the `n`-th draw of `roll`. */
  function Stock(roll: nat -> nat, n: nat): (s: int)
    ensures 15 <= s <= 75
  {
    15 + roll(n) % 61
  }

  /** The value formatted by `{price:,}` in the creation message. */
  datatype FormatArg = TextArg(s: string) | NumberArg(n: int)

  /** Python accepts the `,` grouping option for numbers only; for a `str`
      the format raises `ValueError`. */
  predicate GroupingAccepted(a: FormatArg) { a.NumberArg? }

  /** The report after a product was created: the message, unless
      formatting it raises, in which case the handler reports a failure. */
  function CreationReport(name: string, a: FormatArg): Report
  {
    if GroupingAccepted(a) then Created(name) else FailedItem(name)
  }

  /** The row `Product.objects.create(...)` inserts (price in centavos). */
  function NewProduct(id: ProductId, cfg: Seeding, category: CategoryId, item: ProductSeed, pesos: nat, stock: int): Product
  {
    Product(id, cfg.vendor, category, item.name, cfg.slugOf(item.name), item.description,
            pesos * 100, stock, ImageFileName(item.name), true)
  }

  /** One entry of a group whose category was found: skipped when the name
      is taken, a failure when the price does not parse, else a new row.
      Either way the entry gets exactly one report line, under its name. */
  function SeedItem(r: Run, cfg: Seeding, category: CategoryId, item: ProductSeed): (out: Run)
    ensures r.products <= out.products && r.log <= out.log && |out.log| == |r.log| + 1
    ensures !out.log[|r.log|].CategoryMissing? && out.log[|r.log|].name == item.name
    ensures out.log[|r.log|].Skipped? <==> NameTaken(r.products, item.name)
    ensures out.skipped == r.skipped + (if NameTaken(r.products, item.name) then 1 else 0)
    ensures |out.products| == |r.products| + 1 <==> !NameTaken(r.products, item.name) && ParsePrice(item.price).Some?
    ensures |out.products| <= |r.products| + 1
  {
    if NameTaken(r.products, item.name) then
      r.(skipped := r.skipped + 1, log := r.log + [Skipped(item.name)])
    else match ParsePrice(item.price)
      case None => r.(log := r.log + [FailedItem(item.name)])
      case Some(pesos) =>
        var p := NewProduct(r.next, cfg, category, item, pesos, Stock(cfg.roll, r.created));
        var arg := if cfg.asWritten then TextArg(item.price) else NumberArg(pesos);
        Run(r.products + [p], r.next + 1, r.created + 1, r.skipped, r.log + [CreationReport(item.name, arg)])
  }

  /** The inner loop, one report line per entry. */
  function SeedItems(r: Run, cfg: Seeding, category: CategoryId, items: seq<ProductSeed>): (out: Run)
    ensures r.products <= out.products && r.log <= out.log
    ensures |out.log| == |r.log| + |items|
  {
    if items == [] then r
    else SeedItem(SeedItems(r, cfg, category, items[..|items| - 1]), cfg, category, items[|items| - 1])
  }

  /** One group: reported and skipped when no category matches its key. */
  function SeedGroupRun(r: Run, cfg: Seeding, group: SeedGroup): (out: Run)
    ensures r.products <= out.products && r.log <= out.log
  {
    var k := FirstMatch(cfg.categories, CategoryKey(group.category));
    if k < 0 then r.(log := r.log + [CategoryMissing(group.category)])
    else SeedItems(r, cfg, cfg.categories[k].id, group.items)
  }

  /** The command's loop over the catalogue. */
  function SeedGroups(r: Run, cfg: Seeding, groups: seq<SeedGroup>): (out: Run)
    ensures r.products <= out.products && r.log <= out.log
  {
    if groups == [] then r
    else SeedGroupRun(SeedGroups(r, cfg, groups[..|groups| - 1]), cfg, groups[|groups| - 1])
  }

  /** The number of `Skipped` lines in a report. */
  function SkippedIn(log: seq<Report>): nat
  {
    if log == [] then 0
    else SkippedIn(log[..|log| - 1]) + (if log[|log| - 1].Skipped? then 1 else 0)
  }

  lemma {:induction false} SkippedInAppend(a: seq<Report>, b: seq<Report>)
    ensures SkippedIn(a + b) == SkippedIn(a) + SkippedIn(b)
  {
    if b == [] {
      assert a + b == a;
    } else {
      assert (a + b)[..|a + b| - 1] == a + b[..|b| - 1];
      SkippedInAppend(a, b[..|b| - 1]);
    }
  }

  /** Line `i` of the report is the one for `item`, met when the product
      table was `before`: it names the entry and is `Skipped` exactly when
      the name was taken. */
  predicate LineFor(log: seq<Report>, i: int, item: ProductSeed, before: seq<Product>)
  {
    && 0 <= i < |log|
    && !log[i].CategoryMissing?
    && log[i].name == item.name
    && (log[i].Skipped? <==> NameTaken(before, item.name))
  }

  /** Every entry of a group under a found category is accounted for once:
      its line in the report names it and is `Skipped` exactly when its
      name was taken when the loop reached it. */
  lemma SeedItemsAccount(r: Run, cfg: Seeding, category: CategoryId, items: seq<ProductSeed>)
    ensures var out := SeedItems(r, cfg, category, items);
      forall j :: 0 <= j < |items| ==>
        LineFor(out.log, |r.log| + j, items[j], SeedItems(r, cfg, category, items[..j]).products)
  {
    forall j | 0 <= j < |items|
      ensures LineFor(SeedItems(r, cfg, category, items).log, |r.log| + j, items[j], SeedItems(r, cfg, category, items[..j]).products)
    {
      SeedItemsLine(r, cfg, category, items, j);
    }
  }

  /** The line of entry `j`, one entry at a time. */
  lemma {:induction false} SeedItemsLine(r: Run, cfg: Seeding, category: CategoryId, items: seq<ProductSeed>, j: nat)
    requires j < |items|
    ensures LineFor(SeedItems(r, cfg, category, items).log, |r.log| + j, items[j], SeedItems(r, cfg, category, items[..j]).products)
  {
    var init := items[..|items| - 1];
    var m := SeedItems(r, cfg, category, init);
    var out := SeedItems(r, cfg, category, items);
    assert out == SeedItem(m, cfg, category, items[|items| - 1]);
    if j < |init| {
      SeedItemsLine(r, cfg, category, init, j);
      assert items[j] == init[j] && items[..j] == init[..j];
      LineForKept(m.log, out.log, |r.log| + j, init[j], SeedItems(r, cfg, category, init[..j]).products);
    } else {
      assert items[..j] == init;
    }
  }

  lemma LineForKept(a: seq<Report>, b: seq<Report>, i: int, item: ProductSeed, before: seq<Product>)
    requires a <= b && LineFor(a, i, item, before)
    ensures LineFor(b, i, item, before)
  {
    assert b[i] == a[i];
  }

  /** The skip counter of a group under a found category grows by the
      number of `Skipped` lines the group adds to the report. */
  lemma {:induction false} SeedItemsSkipped(r: Run, cfg: Seeding, category: CategoryId, items: seq<ProductSeed>)
    ensures var out := SeedItems(r, cfg, category, items);
      out.skipped == r.skipped + SkippedIn(out.log[|r.log|..])
  {
    var out := SeedItems(r, cfg, category, items);
    if items == [] {
      assert out.log[|r.log|..] == [];
    } else {
      var m := SeedItems(r, cfg, category, items[..|items| - 1]);
      SeedItemsSkipped(r, cfg, category, items[..|items| - 1]);
      var line := out.log[|m.log|];
      assert out.log[|r.log|..] == m.log[|r.log|..] + [line];
      SkippedInAppend(m.log[|r.log|..], [line]);
      assert [line][..0] == [];
    }
  }

  /** One group adds to the skip counter the number of `Skipped` lines it
      adds to the report. */
  lemma SeedGroupRunSkipped(r: Run, cfg: Seeding, group: SeedGroup)
    ensures var out := SeedGroupRun(r, cfg, group);
      out.skipped == r.skipped + SkippedIn(out.log[|r.log|..])
  {
    var k := FirstMatch(cfg.categories, CategoryKey(group.category));
    if k < 0 {
      MissingSkipsNothing(r, group.category);
      assert SeedGroupRun(r, cfg, group) == r.(log := r.log + [CategoryMissing(group.category)]);
    } else {
      SeedItemsSkipped(r, cfg, cfg.categories[k].id, group.items);
      assert SeedGroupRun(r, cfg, group) == SeedItems(r, cfg, cfg.categories[k].id, group.items);
    }
  }

  /** A group without a category adds no `Skipped` line. */
  lemma MissingSkipsNothing(r: Run, heading: string)
    ensures var out := r.(log := r.log + [CategoryMissing(heading)]);
      out.skipped == r.skipped + SkippedIn(out.log[|r.log|..])
  {
    var line := [CategoryMissing(heading)];
    assert (r.log + line)[|r.log|..] == line;
    assert line[..0] == [];
  }

  /** Over the whole catalogue, the skip counter grows by exactly the
      number of entries reported as skipped. */
  lemma {:induction false} SeedGroupsSkipped(r: Run, cfg: Seeding, groups: seq<SeedGroup>)
    ensures var out := SeedGroups(r, cfg, groups);
      out.skipped == r.skipped + SkippedIn(out.log[|r.log|..])
  {
    if groups == [] {
      assert r.log[|r.log|..] == [];
    } else {
      var m := SeedGroups(r, cfg, groups[..|groups| - 1]);
      var out := SeedGroupRun(m, cfg, groups[|groups| - 1]);
      SeedGroupsSkipped(r, cfg, groups[..|groups| - 1]);
      SeedGroupRunSkipped(m, cfg, groups[|groups| - 1]);
      SuffixSplit(r.log, m.log, out.log);
      SkippedInAppend(m.log[|r.log|..], out.log[|m.log|..]);
    }
  }

  /** A row as the command creates it. */
  predicate SeededRow(p: Product, cfg: Seeding)
  {
    && p.vendor == cfg.vendor
    && p.isActive
    && 15 <= p.stock <= 75
    && p.price >= 0 && p.price % 100 == 0
    && p.image == ImageFileName(p.name)
    && p.slug == cfg.slugOf(p.name)
    && exists i :: 0 <= i < |cfg.categories| && cfg.categories[i].id == p.category
  }

  function NamesOf(products: seq<Product>): seq<string>
  {
    seq(|products|, i requires 0 <= i < |products| => products[i].name)
  }

  /** The names the report says were created. */
  function CreatedNames(log: seq<Report>): seq<string>
  {
    if log == [] then []
    else if log[|log| - 1].Created? then CreatedNames(log[..|log| - 1]) + [log[|log| - 1].name]
    else CreatedNames(log[..|log| - 1])
  }

  /** How a run may change its state: rows and report entries are only
      appended; each new row is seeded, takes the next key and bears a name
      no earlier row has; the counter of created rows follows the rows; and
      the report names the created rows (none, as written). */
  ghost predicate Extends(a: Run, b: Run, cfg: Seeding)
  {
    Grows(a, b) && FreshRows(a, b, cfg) && ReportsRows(a, b, cfg)
  }

  ghost predicate Grows(a: Run, b: Run)
  {
    && a.products <= b.products
    && a.log <= b.log
    && b.next == a.next + (|b.products| - |a.products|)
    && b.created == a.created + (|b.products| - |a.products|)
    && b.skipped >= a.skipped
  }

  ghost predicate FreshRows(a: Run, b: Run, cfg: Seeding)
  {
    forall k :: |a.products| <= k < |b.products| ==>
      && SeededRow(b.products[k], cfg)
      && b.products[k].id == a.next + (k - |a.products|)
      && !NameTaken(b.products[..k], b.products[k].name)
  }

  ghost predicate ReportsRows(a: Run, b: Run, cfg: Seeding)
  {
    |a.products| <= |b.products|
    && CreatedNames(b.log) == CreatedNames(a.log) + (if cfg.asWritten then [] else NamesOf(b.products[|a.products|..]))
  }

  lemma ExtendsRefl(a: Run, cfg: Seeding)
    ensures Extends(a, a, cfg)
  {
    assert NamesOf(a.products[|a.products|..]) == [];
  }

  lemma ExtendsTrans(a: Run, b: Run, c: Run, cfg: Seeding)
    requires Extends(a, b, cfg) && Extends(b, c, cfg)
    ensures Extends(a, c, cfg)
  {
    FreshRowsTrans(a, b, c, cfg);
    ReportsRowsTrans(a, b, c, cfg);
  }

  lemma FreshRowsTrans(a: Run, b: Run, c: Run, cfg: Seeding)
    requires Grows(a, b) && Grows(b, c) && FreshRows(a, b, cfg) && FreshRows(b, c, cfg)
    ensures FreshRows(a, c, cfg)
  {
    forall k | |a.products| <= k < |b.products|
      ensures c.products[k] == b.products[k] && c.products[..k] == b.products[..k]
    {
      assert b.products == c.products[..|b.products|];
    }
  }

  lemma ReportsRowsTrans(a: Run, b: Run, c: Run, cfg: Seeding)
    requires Grows(a, b) && Grows(b, c) && ReportsRows(a, b, cfg) && ReportsRows(b, c, cfg)
    ensures ReportsRows(a, c, cfg)
  {
    var x, y := b.products[|a.products|..], c.products[|b.products|..];
    assert c.products[|a.products|..] == x + y;
    NamesOfAppend(x, y);
  }

  lemma NamesOfAppend(x: seq<Product>, y: seq<Product>)
    ensures NamesOf(x + y) == NamesOf(x) + NamesOf(y)
  {
    assert forall i :: 0 <= i < |x + y| ==> (x + y)[i] == if i < |x| then x[i] else y[i - |x|];
  }

  lemma SeedItemExtends(r: Run, cfg: Seeding, category: CategoryId, item: ProductSeed)
    requires exists i :: 0 <= i < |cfg.categories| && cfg.categories[i].id == category
    ensures Extends(r, SeedItem(r, cfg, category, item), cfg)
  {
    var out := SeedItem(r, cfg, category, item);
    if NameTaken(r.products, item.name) || ParsePrice(item.price).None? {
      ExtendsRefl(r, cfg);
      assert out.products == r.products && out.log[..|r.log|] == r.log;
      assert out.log[..|out.log| - 1] == r.log;
    } else {
      assert out.products[..|r.products|] == r.products;
      assert out.log[..|out.log| - 1] == r.log;
      assert out.products[|r.products|..] == [out.products[|r.products|]];
    }
  }

  lemma {:induction false} SeedItemsExtends(r: Run, cfg: Seeding, category: CategoryId, items: seq<ProductSeed>)
    requires exists i :: 0 <= i < |cfg.categories| && cfg.categories[i].id == category
    ensures Extends(r, SeedItems(r, cfg, category, items), cfg)
  {
    if items == [] {
      ExtendsRefl(r, cfg);
    } else {
      var m := SeedItems(r, cfg, category, items[..|items| - 1]);
      SeedItemsExtends(r, cfg, category, items[..|items| - 1]);
      SeedItemExtends(m, cfg, category, items[|items| - 1]);
      ExtendsTrans(r, m, SeedItems(r, cfg, category, items), cfg);
    }
  }

  /** Whatever the catalogue, the command only appends seeded rows with
      fresh keys and unused names, and counts and reports them. */
  lemma {:induction false} SeedGroupsExtends(r: Run, cfg: Seeding, groups: seq<SeedGroup>)
    ensures Extends(r, SeedGroups(r, cfg, groups), cfg)
  {
    if groups == [] {
      ExtendsRefl(r, cfg);
    } else {
      var m := SeedGroups(r, cfg, groups[..|groups| - 1]);
      SeedGroupsExtends(r, cfg, groups[..|groups| - 1]);
      SeedGroupRunExtends(m, cfg, groups[|groups| - 1]);
      ExtendsTrans(r, m, SeedGroups(r, cfg, groups), cfg);
    }
  }

  lemma SeedGroupRunExtends(r: Run, cfg: Seeding, g: SeedGroup)
    ensures Extends(r, SeedGroupRun(r, cfg, g), cfg)
  {
    var k := FirstMatch(cfg.categories, CategoryKey(g.category));
    if k < 0 {
      MissingExtends(r, cfg, g.category);
    } else {
      var id := cfg.categories[k].id;
      assert SeedGroupRun(r, cfg, g) == SeedItems(r, cfg, id, g.items);
      SeedItemsExtends(r, cfg, id, g.items);
    }
  }

  lemma MissingExtends(r: Run, cfg: Seeding, heading: string)
    ensures Extends(r, r.(log := r.log + [CategoryMissing(heading)]), cfg)
  {
    var out := r.(log := r.log + [CategoryMissing(heading)]);
    ExtendsRefl(r, cfg);
    assert out.log[..|out.log| - 1] == r.log;
  }

  function ProductName(p: Product): string { p.name }

  /** The command never gives two products the same name, and keeps the
      product keys valid. */
  lemma SeedGroupsKeepKeys(r: Run, cfg: Seeding, groups: seq<SeedGroup>)
    ensures var out := SeedGroups(r, cfg, groups);
      && (DistinctBy(r.products, ProductName) ==> DistinctBy(out.products, ProductName))
      && (ProductsValid(r.products, r.next) ==> ProductsValid(out.products, out.next))
  {
    var out := SeedGroups(r, cfg, groups);
    SeedGroupsExtends(r, cfg, groups);
    if DistinctBy(r.products, ProductName) {
      ExtendsKeepsNames(r, out, cfg);
    }
    if ProductsValid(r.products, r.next) {
      ExtendsKeepsKeys(r, out, cfg);
    }
  }

  lemma ExtendsKeepsNames(a: Run, b: Run, cfg: Seeding)
    requires Extends(a, b, cfg) && DistinctBy(a.products, ProductName)
    ensures DistinctBy(b.products, ProductName)
  {
    var n := |a.products|;
    forall i, j | 0 <= i < j < |b.products| ensures b.products[i].name != b.products[j].name {
      if n <= j {
        assert b.products[..j][i] == b.products[i];
      } else {
        assert b.products[i] == a.products[i] && b.products[j] == a.products[j];
      }
    }
  }

  lemma ExtendsKeepsKeys(a: Run, b: Run, cfg: Seeding)
    requires Extends(a, b, cfg) && ProductsValid(a.products, a.next)
    ensures ProductsValid(b.products, b.next)
  {
    var n := |a.products|;
    forall i, j | 0 <= i < j < |b.products| ensures b.products[i].id != b.products[j].id {
      if j < n {
        assert b.products[i] == a.products[i] && b.products[j] == a.products[j];
      } else if i < n {
        assert b.products[i] == a.products[i];
      }
    }
    forall i | 0 <= i < |b.products| ensures b.products[i].id < b.next {
      if i < n {
        assert b.products[i] == a.products[i];
      }
    }
    AscendingIff(a.products, ProductRowId);
    AscendingIff(b.products, ProductRowId);
    forall i, j | 0 <= i < j < |b.products| ensures ProductRowId(b.products[i]) < ProductRowId(b.products[j]) {
      if j < n {
        assert b.products[i] == a.products[i] && b.products[j] == a.products[j];
      } else if i < n {
        assert b.products[i] == a.products[i];
      }
    }
  }

  /** The corrected report names exactly the created rows; as written, the
      report never says a product was created although rows are created. */
  lemma SeedGroupsReport(cfg: Seeding, groups: seq<SeedGroup>, products: seq<Product>, next: nat)
    ensures var out := SeedGroups(Run(products, next, 0, 0, []), cfg, groups);
      && |products| <= |out.products|
      && (!cfg.asWritten ==> CreatedNames(out.log) == NamesOf(out.products[|products|..]))
      && (cfg.asWritten ==> CreatedNames(out.log) == [])
      && out.created == |out.products| - |products|
  {
    SeedGroupsExtends(Run(products, next, 0, 0, []), cfg, groups);
  }

  /** One new catalogue entry under a found category: the row is created
      and counted, yet, as written, reported as a failure; corrected, it is
      reported as created. */
  lemma CreatedButReportedFailed(cfg: Seeding, heading: string, item: ProductSeed, products: seq<Product>, next: nat)
    requires Placed(cfg, SeedGroup(heading, [item]))
    requires !NameTaken(products, item.name) && ParsePrice(item.price).Some?
    ensures var out := SeedGroups(Run(products, next, 0, 0, []), cfg, [SeedGroup(heading, [item])]);
      && |out.products| == |products| + 1 && out.created == 1
      && out.log == [if cfg.asWritten then FailedItem(item.name) else Created(item.name)]
  {
    var g := SeedGroup(heading, [item]);
    var r := Run(products, next, 0, 0, []);
    assert [g][..0] == [];
    assert SeedGroups(r, cfg, [g]) == SeedGroupRun(r, cfg, g);
    var k := FirstMatch(cfg.categories, CategoryKey(heading));
    assert [item][..0] == [];
    assert SeedItems(r, cfg, cfg.categories[k].id, [item]) == SeedItem(r, cfg, cfg.categories[k].id, item);
  }

  predicate Placed(cfg: Seeding, group: SeedGroup)
  {
    FirstMatch(cfg.categories, CategoryKey(group.category)) >= 0
  }

  lemma NameTakenGrows(a: seq<Product>, b: seq<Product>, name: string)
    requires a <= b && NameTaken(a, name)
    ensures NameTaken(b, name)
  {
    var i :| 0 <= i < |a| && a[i].name == name;
    assert b[i] == a[i];
  }

  /** After a run, every catalogue entry under a found category whose
      price parses has a product of its name. */
  lemma {:induction false} SeedGroupsPresent(r: Run, cfg: Seeding, groups: seq<SeedGroup>)
    ensures var out := SeedGroups(r, cfg, groups);
      forall g, j ::
        (0 <= g < |groups| && Placed(cfg, groups[g]) && 0 <= j < |groups[g].items| && ParsePrice(groups[g].items[j].price).Some?)
        ==> NameTaken(out.products, groups[g].items[j].name)
  {
    if groups != [] {
      var init := groups[..|groups| - 1];
      var last := groups[|groups| - 1];
      SeedGroupsPresent(r, cfg, init);
      var m := SeedGroups(r, cfg, init);
      var out := SeedGroups(r, cfg, groups);
      assert out == SeedGroupRun(m, cfg, last);
      if Placed(cfg, last) {
        var k := FirstMatch(cfg.categories, CategoryKey(last.category));
        assert out == SeedItems(m, cfg, cfg.categories[k].id, last.items);
        SeedItemsPresent(m, cfg, cfg.categories[k].id, last.items);
      }
      forall g, j | 0 <= g < |groups| && Placed(cfg, groups[g]) && 0 <= j < |groups[g].items|
        && ParsePrice(groups[g].items[j].price).Some?
        ensures NameTaken(out.products, groups[g].items[j].name)
      {
        if g < |init| {
          assert groups[g] == init[g];
          NameTakenGrows(m.products, out.products, groups[g].items[j].name);
        } else {
          assert g == |groups| - 1;
          assert groups[g] == last;
        }
      }
    }
  }

  lemma {:induction false} SeedItemsPresent(r: Run, cfg: Seeding, category: CategoryId, items: seq<ProductSeed>)
    requires exists i :: 0 <= i < |cfg.categories| && cfg.categories[i].id == category
    ensures var out := SeedItems(r, cfg, category, items);
      forall j :: 0 <= j < |items| && ParsePrice(items[j].price).Some? ==> NameTaken(out.products, items[j].name)
  {
    if items != [] {
      var init := items[..|items| - 1];
      SeedItemsPresent(r, cfg, category, init);
      var m := SeedItems(r, cfg, category, init);
      var out := SeedItems(r, cfg, category, items);
      SeedItemExtends(m, cfg, category, items[|items| - 1]);
      forall j | 0 <= j < |items| && ParsePrice(items[j].price).Some?
        ensures NameTaken(out.products, items[j].name)
      {
        if j < |init| {
          assert items[j] == init[j];
          NameTakenGrows(m.products, out.products, items[j].name);
        } else if !NameTaken(m.products, items[j].name) {
          assert out.products[|out.products| - 1].name == items[j].name;
        } else {
          NameTakenGrows(m.products, out.products, items[j].name);
        }
      }
    }
  }

  /** When every entry that could be created already has a product of its
      name, a run creates nothing. */
  lemma {:induction false} SeedItemsNoop(r: Run, cfg: Seeding, category: CategoryId, items: seq<ProductSeed>)
    requires forall j :: 0 <= j < |items| && ParsePrice(items[j].price).Some? ==> NameTaken(r.products, items[j].name)
    ensures var out := SeedItems(r, cfg, category, items);
      out.products == r.products && out.next == r.next && out.created == r.created
  {
    if items != [] {
      SeedItemsNoop(r, cfg, category, items[..|items| - 1]);
    }
  }

  lemma {:induction false} SeedGroupsNoop(r: Run, cfg: Seeding, groups: seq<SeedGroup>)
    requires forall g, j ::
      (0 <= g < |groups| && Placed(cfg, groups[g]) && 0 <= j < |groups[g].items| && ParsePrice(groups[g].items[j].price).Some?)
      ==> NameTaken(r.products, groups[g].items[j].name)
    ensures var out := SeedGroups(r, cfg, groups);
      out.products == r.products && out.next == r.next && out.created == r.created
  {
    if groups != [] {
      var init := groups[..|groups| - 1];
      var last := groups[|groups| - 1];
      SeedGroupsNoop(r, cfg, init);
      var m := SeedGroups(r, cfg, init);
      if Placed(cfg, last) {
        var k := FirstMatch(cfg.categories, CategoryKey(last.category));
        SeedItemsNoop(m, cfg, cfg.categories[k].id, last.items);
      }
    }
  }

  /** Running the command a second time creates nothing. */
  lemma SeedGroupsRerun(r: Run, cfg: Seeding, groups: seq<SeedGroup>)
    ensures var once := SeedGroups(r, cfg, groups);
      var twice := SeedGroups(Run(once.products, once.next, 0, 0, []), cfg, groups);
      twice.products == once.products && twice.created == 0
  {
    var once := SeedGroups(r, cfg, groups);
    SeedGroupsPresent(r, cfg, groups);
    SeedGroupsNoop(Run(once.products, once.next, 0, 0, []), cfg, groups);
  }

  /** `Product.objects.create(...)`: the row is appended under the next key. */
  method InsertProduct(shop: Shop, p: Product)
    requires shop.Valid() && p.id == shop.nextProductId
    modifies shop`products, shop`nextProductId
    ensures shop.Valid()
    ensures shop.products == old(shop.products) + [p] && shop.nextProductId == old(shop.nextProductId) + 1
  {
    ProductsAppendValid(shop.products, shop.nextProductId, p);
    CartProductsAppendValid(shop.cart, shop.products, shop.nextCartId, p);
    shop.products := shop.products + [p];
    shop.nextProductId := shop.nextProductId + 1;
  }

  /** One entry of a group, into the shop's product table. */
  method SeedOneItem(shop: Shop, cfg: Seeding, category: CategoryId, item: ProductSeed, r: Run)
    returns (out: Run)
    requires shop.Valid() && !cfg.asWritten && cfg.slugOf == shop.slugOf
    requires r.products == shop.products && r.next == shop.nextProductId
    modifies shop`products, shop`nextProductId
    ensures shop.Valid()
    ensures out == SeedItem(r, cfg, category, item)
    ensures shop.products == out.products && shop.nextProductId == out.next
  {
    if NameTaken(shop.products, item.name) {
      out := r.(skipped := r.skipped + 1, log := r.log + [Skipped(item.name)]);
    } else {
      var price := ParsePrice(item.price);
      if price.None? {
        out := r.(log := r.log + [FailedItem(item.name)]);
      } else {
        var p := NewProduct(shop.nextProductId, cfg, category, item, price.value, Stock(cfg.roll, r.created));
        InsertProduct(shop, p);
        out := Run(shop.products, shop.nextProductId, r.created + 1, r.skipped,
                   r.log + [CreationReport(item.name, NumberArg(price.value))]);
      }
    }
  }

  /** The inner loop: the entries of one group, into the shop's product
      table. */
  method SeedGroupItems(shop: Shop, cfg: Seeding, category: CategoryId, items: seq<ProductSeed>, r: Run)
    returns (out: Run)
    requires shop.Valid() && !cfg.asWritten && cfg.slugOf == shop.slugOf
    requires exists i :: 0 <= i < |cfg.categories| && cfg.categories[i].id == category
    requires r.products == shop.products && r.next == shop.nextProductId
    modifies shop`products, shop`nextProductId
    ensures shop.Valid()
    ensures out == SeedItems(r, cfg, category, items)
    ensures shop.products == out.products && shop.nextProductId == out.next
  {
    out := r;
    var j := 0;
    while j < |items|
      invariant 0 <= j <= |items|
      invariant shop.Valid()
      invariant out == SeedItems(r, cfg, category, items[..j])
      invariant shop.products == out.products && shop.nextProductId == out.next
    {
      assert items[..j + 1][..j] == items[..j];
      out := SeedOneItem(shop, cfg, category, items[j], out);
      j := j + 1;
    }
    assert items[..j] == items;
  }

  lemma SeedGroupsPrefix(r: Run, cfg: Seeding, groups: seq<SeedGroup>, g: nat)
    requires g < |groups|
    ensures SeedGroups(r, cfg, groups[..g + 1]) == SeedGroupRun(SeedGroups(r, cfg, groups[..g]), cfg, groups[g])
  {
    assert groups[..g + 1][..g] == groups[..g];
  }

  /** One group of the catalogue, into the shop's product table. */
  method SeedOneGroup(shop: Shop, cfg: Seeding, group: SeedGroup, r: Run) returns (out: Run)
    requires shop.Valid() && !cfg.asWritten && cfg.slugOf == shop.slugOf && cfg.categories == shop.categories
    requires r.products == shop.products && r.next == shop.nextProductId
    modifies shop`products, shop`nextProductId
    ensures shop.Valid()
    ensures out == SeedGroupRun(r, cfg, group)
    ensures shop.products == out.products && shop.nextProductId == out.next
  {
    var k := FirstMatch(shop.categories, CategoryKey(group.category));
    if k < 0 {
      out := r.(log := r.log + [CategoryMissing(group.category)]);
    } else {
      out := SeedGroupItems(shop, cfg, shop.categories[k].id, group.items, r);
    }
  }

  /** The command's loop over `groups`, with `vendor` as the seller and
      `roll` as the random stock draws; returns the report's two totals
      and its lines. */
  method SeedProducts(shop: Shop, vendor: UserId, groups: seq<SeedGroup>, roll: nat -> nat)
    returns (created: nat, skipped: nat, log: seq<Report>)
    requires shop.Valid()
    modifies shop`products, shop`nextProductId
    ensures shop.Valid()
    ensures var cfg := Seeding(vendor, shop.categories, shop.slugOf, roll, false);
      Run(shop.products, shop.nextProductId, created, skipped, log)
        == SeedGroups(Run(old(shop.products), old(shop.nextProductId), 0, 0, []), cfg, groups)
  {
    var cfg := Seeding(vendor, shop.categories, shop.slugOf, roll, false);
    var start := Run(shop.products, shop.nextProductId, 0, 0, []);
    var r := start;
    var g := 0;
    while g < |groups|
      invariant 0 <= g <= |groups|
      invariant shop.Valid() && cfg.categories == shop.categories
      invariant r == SeedGroups(start, cfg, groups[..g])
      invariant shop.products == r.products && shop.nextProductId == r.next
    {
      SeedGroupsPrefix(start, cfg, groups, g);
      r := SeedOneGroup(shop, cfg, groups[g], r);
      g := g + 1;
    }
    assert groups[..g] == groups;
    created, skipped, log := r.created, r.skipped, r.log;
  }
}
