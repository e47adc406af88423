# Juan-Shop in Dafny

A model of the core of Juan-Shop, a Django shop for computer parts, with
proofs about it.

The model covers these parts of the shop:

- **The shop's views** (`myapp/views.py`):
  - the catalogue pages: home, the product list with its search and category filters, and the product page with its related products;
  - the cart: add, update and remove, and the cart page with its total;
  - checkout, which turns the caller's cart into an order and its items;
  - the vendor dashboard's counts and revenue;
  - creating, editing and deleting a product, with the role and ownership checks each one makes;
  - the order page.
- **The `populate_categories` management command**: it creates each of fifteen
  computer-part categories unless one of that name exists.
- **The `populate_products` management command**:
  - For each heading of its built-in catalogue, it looks up the category whose
    name contains the heading's key.
  - It then creates every product whose name is not yet taken.
  - Each product gets a random stock and an image. The model covers the
    image's wrapped label text and its file name.

Layout, one module per file:

| file | module | contents |
|---|---|---|
| `seqs.dfy` | `Seqs` | the query-set shapes every view is built on: filter, slice (`[:n]`), order-preserving subsequence, distinct keys |
| `text.dfy` | `Text` | ASCII `lower`, `icontains`, `split`, `join`, `strip` and `split(c)[0]` |
| `tables.dfy` | `Tables` | the rows (`Product`, `Category`, `Cart`, `Order`, `OrderItem`, `User`), the lookups, and the cart total |
| `carts.dfy` | `Carts` | the table invariants, and each cart view and checkout as a function on the tables, with its lemmas |
| `catalog.dfy` | `Catalog` | the read-only views, as functions |
| `dashboard.dfy` | `Dashboard` | `vendor_dashboard`, as a function |
| `store.dfy` | `Store` | class `Shop`, with the five tables as fields; the views that write are its methods |
| `wrap.dfy` | `ImageLabel` | the label's word-wrap loop as a method, and the image file name |
| `populate_categories.dfy` | `PopulateCategories` | the get-or-create loop |
| `populate_products.dfy` | `PopulateProducts` | the per-heading and per-product loops, with the command's counters and report |

Each view that writes is a method of `Shop`. It is proved against a function on
the tables (for example `AddedCart`, `UpdatedCart`, `RemovedCart` or
`SnapshotItems`). Every method keeps `Valid()`, the invariant that holds the
tables together:

- primary keys are unique and below the next key;
- product and category rows are kept in ascending key order, so a table's order is its primary-key order, which `.first()` follows;
- a user has one cart row per product, and every cart row holds at least one unit of an existing product.

The seeding commands are functions of their starting state (`SeedCategoryRows`,
`SeedGroups`). Their loops are methods whose postconditions tie the new state to
those functions.

Assumed behaviour of the model classes. The model classes themselves are not
part of this model, so the following five are assumptions:

- `Cart.get_total()` is the product's price times the quantity.
- A new cart row holds one unit.
- Deleting a product deletes its cart rows and order items.
- `Product`, `Category` and `OrderItem` declare no `Meta.ordering`. So a query set without `order_by` is read in primary-key order, and `.first()` takes the lowest key. The first eight products on the home page, the first four related products, the dashboard's first ten items and `PopulateProducts.FirstMatch` rely on this.
- A product's or category's slug is derived from its name (`slugOf`) when the row is first saved, and kept on later edits (`Store.Edited` keeps it when the name changes).

## Model

| member | source | states |
|---|---|---|
| `Tables.FindProduct` | myapp/views.py:179 | the product found has the key asked for; none is found only when no row has that key |
| `Tables.UserCart` | myapp/views.py:197 | exactly the caller's cart rows, in table order |
| `Tables.PairIndex` | myapp/views.py:185 | the row `get_or_create` finds is for that user and product, and no earlier row is; -1 means no row has the pair |
| `Tables.EntryIndex` | myapp/views.py:208 | the row found has the key asked for and is the caller's; -1 means no row of the caller's has that key (404) |
| `Tables.OwnedProductIndex` | myapp/views.py:147 | the product found has the key and belongs to the caller; -1 means a 404 |
| `Tables.CartTotalAppend` | myapp/views.py:198 | the cart total is additive over rows |
| `Tables.LineTotal` | myapp/views.py:198 | a row's total; with a non-negative price and at least one unit it is at least the unit price |
| `Tables.CartTotal` | myapp/views.py:198 | the sum of the row totals; with no negative price or quantity, the total is never negative |
| `Carts.AddedCart` | myapp/views.py:185-188 | afterwards the (user, product) pair has a row; an existing row of the pair gains one unit, and a new one is appended under the next key with quantity 1 exactly when the pair had none; every other row keeps its place, key and quantity |
| `Carts.AddedCartQuantity` | myapp/views.py:185-188 | adding raises the caller's quantity of that product by exactly one and leaves every other (user, product) quantity unchanged |
| `Carts.AddedCartValid` | myapp/views.py:185-188 | the cart stays valid (one row per user and product); a key is used only when a row is created |
| `Carts.RepeatedAddsQuantity` | myapp/views.py:185-188 | n adds of a new product leave quantity n |
| `Carts.RepeatedAddsOneRow` | myapp/views.py:185-188 | n >= 1 adds of a new product create exactly one row and use one key |
| `Carts.RepeatedAdds` | myapp/views.py:185-188 | after n >= 1 adds there is exactly one row for the pair, and it holds n |
| `Carts.UpdatedCart` | myapp/views.py:208-212 | keys and (user, product) pairs of every row are kept; only the caller's row with that key can change, and it takes the posted quantity; a quantity of 0 or less changes nothing |
| `Carts.UpdatedCartRows` | myapp/views.py:208-212 | only the caller's row with that key changes, and only when the quantity is positive; every other row is unchanged |
| `Carts.UpdatedCartValid` | myapp/views.py:208-212 | updating keeps the cart valid |
| `Carts.RemovedCart` | myapp/views.py:218-219 | at most one row disappears, no row is added, and every other user's row remains |
| `Carts.RemovedCartRows` | myapp/views.py:218-219 | exactly the caller's row with that key disappears; every other row, other users' included, remains |
| `Carts.RemovedCartValid` | myapp/views.py:218-219 | removing keeps the cart valid |
| `Carts.SnapshotItems` | myapp/views.py:242-249 | one item per cart row, in order, under consecutive keys, with the row's product and quantity and the product's current vendor and price |
| `Carts.SnapshotItemsTotal` | myapp/views.py:230-249 | the order's items add up (price x quantity) to the total stored on the order |
| `Carts.ClearedCart` | myapp/views.py:251 | after checkout the caller's cart is empty, every other user's row is kept, and the cart stays valid |
| `Carts.CheckoutExample` | myapp/views.py:230-249 | a cart of 2 x 100 and 1 x 50 totals 250, and becomes the items (100 x 2) and (50 x 1), which also total 250 |
| `Catalog.Home` | myapp/views.py:12-19 | the first eight active products and the first six categories, in table order |
| `Catalog.SearchFilter` | myapp/views.py:25-27 | with a non-empty search, exactly the products whose name or description contains it, ignoring case, in order; with none, all of them |
| `Catalog.CategoryFilter` | myapp/views.py:29-31 | with a non-empty slug, exactly the products whose category has that slug, in order; with none, all of them |
| `Catalog.ProductList` | myapp/views.py:21-37 | a product is listed if and only if it is active, matches the search and is in the category, and table order is kept |
| `Catalog.SearchIgnoresCase` | myapp/views.py:27 | searching for the lower-cased text lists the same products |
| `Catalog.SearchNarrows` | myapp/views.py:25-31 | a search only removes products from the list |
| `Catalog.RelatedProducts` | myapp/views.py:41 | up to four other products of the same category, in table order |
| `Catalog.RelatedShowsInactive` | myapp/views.py:41 | an inactive product of the same category is among the related products |
| `Catalog.ProductDetail` | myapp/views.py:39-46 | the page exists if and only if exactly one product has the slug, active or not; no match gives a 404; the page shows that product's related products |
| `Catalog.CartView` | myapp/views.py:196-203 | exactly the caller's rows, each once and in table order (an order-preserving subsequence of the cart), and their total |
| `Catalog.UserTotalAppend` | myapp/views.py:198 | a new row changes only its owner's cart total, by the row's total |
| `Catalog.UserTotalUpdate` | myapp/views.py:198 | rewriting a row changes only its owner's cart total, by the difference between the old and new row totals |
| `Catalog.AddedUserTotal` | myapp/views.py:177-198 | adding a product raises the caller's cart total by that product's price, and changes no other user's total |
| `Catalog.CartViewAfterAdd` | myapp/views.py:177-203 | after an add, the cart page's total has grown by exactly the product's price, and other users' totals are unchanged |
| `Catalog.OrderDetail` | myapp/views.py:268-270 | the order shown has the key and was placed by the caller; otherwise a 404 |
| `Catalog.OrderDetailOwnerOnly` | myapp/views.py:268-270 | with unique order keys, the buyer can open the order and nobody else can |
| `Dashboard.OrderIds` | myapp/views.py:115 | the distinct orders among the items, never more than there are items |
| `Dashboard.Revenue` | myapp/views.py:116 | the sum of the items' unit prices: 0 for no items (`or 0`), never negative when no price is |
| `Dashboard.VendorDashboard` | myapp/views.py:107-125 | non-vendors get no page; a vendor gets exactly their products, each once and in table order, and their count, their first ten sold items, the number of distinct orders with one of their items, and the revenue |
| `Dashboard.RevenueIgnoresQuantity` | myapp/views.py:116 | the revenue depends only on the items' prices, not on their quantities |
| `Dashboard.RevenueAtMostSales` | myapp/views.py:116 | the revenue is at most the amount sold, and equals it when every item is a single unit |
| `Dashboard.RevenueExample` | myapp/views.py:116 | three units at 100 show 100 of revenue for 300 of sales |
| `Store.PostedQuantity` | myapp/views.py:209 | the posted quantity, or 1 when none is posted |
| `Store.Edited` | myapp/views.py:149-151 | the form's fields replace the row's; key, vendor and slug are kept |
| `Store.Shop.AddToCart` | myapp/views.py:177-193 | GET does nothing; unknown product is a 404; no stock is refused; otherwise one more unit in the caller's cart, and no other quantity changes; stock is not decremented |
| `Store.Shop.UpdateCart` | myapp/views.py:206-214 | GET does nothing; another user's or a missing row is a 404; a positive posted quantity (1 if absent) replaces the row's, any other leaves the cart unchanged |
| `Store.Shop.RemoveFromCart` | myapp/views.py:217-221 | on any request method: a 404 unless the row is the caller's, otherwise exactly that row is deleted |
| `Store.Shop.AddOrder` | myapp/views.py:233-240 | the order is stored under the next key |
| `Store.Shop.ClearCart` | myapp/views.py:251 | the caller's cart rows are deleted and nobody else's |
| `Store.Shop.WriteItems` | myapp/views.py:242-249 | the loop appends `SnapshotItems` of the cart rows under consecutive keys, and the order items stay valid |
| `Store.Shop.PlaceOrder` | myapp/views.py:232-249 | one order with an 8-character order number, the cart total and the shipping fields, followed by its items, which add up to that total |
| `Store.Shop.Checkout` | myapp/views.py:224-260 | an empty cart is refused; GET shows the rows and the total; POST places the order and its items and empties the caller's cart; products (stock) are never changed |
| `Store.Shop.ProductCreate` | myapp/views.py:128-143 | non-vendors are refused; a valid POST appends a product owned by the caller under the next key; otherwise nothing changes |
| `Store.Shop.ProductEdit` | myapp/views.py:146-156 | a 404 unless the product is the caller's (the role is not checked); a valid POST replaces that row with `Edited`; otherwise nothing changes |
| `Store.Shop.DeleteCartRowsOf` | myapp/views.py:162 | the cascade removes every cart row for the product |
| `Store.Shop.DeleteItemsOf` | myapp/views.py:162 | the cascade removes every order item for the product |
| `Store.Shop.DeleteProductRow` | myapp/views.py:162 | exactly the product row is deleted |
| `Store.Shop.ProductDelete` | myapp/views.py:159-165 | a 404 unless the product is the caller's (the role is not checked); GET changes nothing; POST deletes the row and its cart rows and items |
| `Text.Split` | myapp/management/commands/populate_products.py:34 | `str.split()`: every part is a word (non-empty, no whitespace), and there are none exactly when the text is all whitespace |
| `Text.SplitSkipsSpace` | myapp/management/commands/populate_products.py:34 | leading whitespace yields no word |
| `Text.SplitFirstWord` | myapp/management/commands/populate_products.py:34 | a word followed by whitespace or the end of the text is the first part, and splitting goes on after it; with `SplitSkipsSpace` this fixes the result for every text |
| `Text.SplitJoin` | myapp/management/commands/populate_products.py:34 | splitting words joined by single spaces gives the words back |
| `Text.Strip` | myapp/management/commands/populate_products.py:203 | `str.strip()`: a trimmed slice of the text with only whitespace around it; an already trimmed text is returned as is |
| `Text.Before` | myapp/management/commands/populate_products.py:203 | `split(c)[0]`: the prefix of the text before the first `c`, the whole text when there is no `c` |
| `ImageLabel.WrapName` | myapp/management/commands/populate_products.py:34-50 | every word is kept, in order; a line is wider than 20 only if it is a single word; no line had room for the next line's first word |
| `ImageLabel.ImageFileName` | myapp/management/commands/populate_products.py:68 | the first fifty characters of the name with spaces turned into underscores, then `.png`; no spaces |
| `ImageLabel.FileNamesCollide` | myapp/management/commands/populate_products.py:68 | `RTX 4090` and `RTX_4090` get the same file name |
| `ImageLabel.LongNamesCollide` | myapp/management/commands/populate_products.py:68 | names that agree on their first fifty characters get the same file name |
| `PopulateCategories.CategoryNamed` | myapp/management/commands/populate_categories.py:27-30 | the row found has that name; -1 means no row has it |
| `PopulateCategories.GetOrCreate` | myapp/management/commands/populate_categories.py:27-30 | the old rows are kept and afterwards the name has a row; an existing name changes nothing; otherwise one row is appended under the next key with the entry's name and description |
| `PopulateCategories.SeedCategoryRows` | myapp/management/commands/populate_categories.py:26-34 | the old rows are kept, at most one row is added per entry, and the next key moves on by the number of rows added |
| `PopulateCategories.SeedCategoriesCount` | myapp/management/commands/populate_categories.py:26-36 | the table grows by exactly the number of different listed names it lacked; afterwards a name has a row if and only if it had one before or is one of those |
| `PopulateCategories.SeedCategoriesGrow` | myapp/management/commands/populate_categories.py:26-34 | existing rows are kept; each new row takes the next key and the name and description of a listed entry |
| `PopulateCategories.SeedCategoriesValid` | myapp/management/commands/populate_categories.py:26-34 | category keys stay valid |
| `PopulateCategories.SeedCategoriesPresent` | myapp/management/commands/populate_categories.py:26-34 | afterwards every listed name has a category |
| `PopulateCategories.SeedCategoriesNoop` | myapp/management/commands/populate_categories.py:26-34 | when every name exists, nothing changes |
| `PopulateCategories.SeedCategoriesIdempotent` | myapp/management/commands/populate_categories.py:26-34 | running the command twice is running it once |
| `PopulateCategories.SeedCategoriesDistinctNames` | myapp/management/commands/populate_categories.py:26-34 | no second category with an existing name is created |
| `PopulateCategories.SeedCategoriesAllNew` | myapp/management/commands/populate_categories.py:26-34 | new, pairwise different names are all created |
| `PopulateCategories.FifteenCategories` | myapp/management/commands/populate_categories.py:8-34 | on an empty table all fifteen categories are created |
| `PopulateCategories.GetOrCreateRow` | myapp/management/commands/populate_categories.py:27-30 | the shop's category table becomes `GetOrCreate` of the old one, and the shop stays valid |
| `PopulateCategories.SeedCategories` | myapp/management/commands/populate_categories.py:26-34 | the loop leaves the shop's category table equal to `SeedCategoryRows` of the old one, and valid |
| `PopulateProducts.CategoryKey` | myapp/management/commands/populate_products.py:203 | the key is the stripped part of the heading before its first parenthesis (the whole heading when there is none); it has no surrounding whitespace and no parenthesis |
| `PopulateProducts.CategoryKeyDropsTag` | myapp/management/commands/populate_products.py:203 | for any `w` without a parenthesis, the key of `w(tag` is `w` stripped, whatever the tag |
| `PopulateProducts.CategoryKeySpacedTag` | myapp/management/commands/populate_products.py:203 | a trimmed `w` with ` (tag` after it, such as `Memory (RAM)`, has key `w` |
| `PopulateProducts.FirstMatch` | myapp/management/commands/populate_products.py:202-204 | the first category whose name contains the key, ignoring case; -1 if and only if none does |
| `PopulateProducts.FirstMatchLowestKey` | myapp/management/commands/populate_products.py:202-204 | in a valid category table the category found has the lowest key among those that match, as `.first()` on a query set in key order does |
| `PopulateProducts.NameTaken` | myapp/management/commands/populate_products.py:212 | true if and only if some product has the name |
| `PopulateProducts.ParsePrice` | myapp/management/commands/populate_products.py:227 | a price parses if and only if it is a non-empty string of digits |
| `PopulateProducts.ParseDigits` | myapp/management/commands/populate_products.py:227 | parsing the digits of n gives n back |
| `PopulateProducts.ParsePriceRejects` | myapp/management/commands/populate_products.py:227 | the empty string and `1,299` do not parse |
| `PopulateProducts.Stock` | myapp/management/commands/populate_products.py:228 | the stock is between 15 and 75 |
| `PopulateProducts.SeedItem` | myapp/management/commands/populate_products.py:210-238 | one entry adds exactly one report line, under its name; the line is `Skipped`, and the skip count goes up by one, exactly when the name is taken; a row is added exactly when the name is free and the price parses |
| `PopulateProducts.SeedItems` | myapp/management/commands/populate_products.py:210-238 | rows and report lines are only appended, one line per entry |
| `PopulateProducts.SeedGroupRun` | myapp/management/commands/populate_products.py:197-238 | rows and report lines are only appended |
| `PopulateProducts.SeedGroups` | myapp/management/commands/populate_products.py:197-238 | rows and report lines are only appended |
| `PopulateProducts.SeedItemsAccount` | myapp/management/commands/populate_products.py:210-238 | every entry of a heading whose category was found has its own report line, in order, naming it, which is `Skipped` exactly when its name was taken when the loop reached it |
| `PopulateProducts.SeedItemsLine` | myapp/management/commands/populate_products.py:210-238 | the same, for the line of one entry |
| `PopulateProducts.SeedItemsSkipped` | myapp/management/commands/populate_products.py:210-215 | `total_skipped` grows by exactly the number of `Skipped` lines the heading's entries add |
| `PopulateProducts.SeedGroupRunSkipped` | myapp/management/commands/populate_products.py:197-215 | the same for one heading, found or not |
| `PopulateProducts.SeedGroupsSkipped` | myapp/management/commands/populate_products.py:194-242 | over the whole catalogue, `total_skipped` is exactly the number of entries reported as skipped |
| `PopulateProducts.SeedItemExtends` | myapp/management/commands/populate_products.py:210-238 | one entry adds at most one row: seeded, under the next key and with a name no earlier row has; it is counted and, corrected, reported |
| `PopulateProducts.SeedItemsExtends` | myapp/management/commands/populate_products.py:210-238 | the same for all entries of one heading |
| `PopulateProducts.SeedGroupsExtends` | myapp/management/commands/populate_products.py:194-242 | the same for the whole catalogue: rows and report lines are only appended, and `total_created` counts the new rows |
| `PopulateProducts.SeedGroupsKeepKeys` | myapp/management/commands/populate_products.py:212-231 | product names stay distinct and product keys stay valid |
| `PopulateProducts.SeedGroupsReport` | myapp/management/commands/populate_products.py:233-238 | corrected, the report names exactly the created rows; as written, it never reports a creation |
| `PopulateProducts.CreatedButReportedFailed` | myapp/management/commands/populate_products.py:222-238 | a new entry with a valid price is created and counted, yet as written it is reported as failed |
| `PopulateProducts.SeedItemsPresent` | myapp/management/commands/populate_products.py:210-231 | afterwards every entry of the heading with a valid price has a product of its name |
| `PopulateProducts.SeedGroupsPresent` | myapp/management/commands/populate_products.py:197-231 | the same for every heading whose category is found |
| `PopulateProducts.SeedItemsNoop` | myapp/management/commands/populate_products.py:210-215 | when every entry that could be created exists, nothing is created |
| `PopulateProducts.SeedGroupsNoop` | myapp/management/commands/populate_products.py:197-215 | the same for the whole catalogue |
| `PopulateProducts.SeedGroupsRerun` | myapp/management/commands/populate_products.py:194-242 | a second run creates nothing |
| `PopulateProducts.InsertProduct` | myapp/management/commands/populate_products.py:222-231 | the row is appended under the next key, and the shop stays valid |
| `PopulateProducts.SeedOneItem` | myapp/management/commands/populate_products.py:210-238 | one entry, on the shop: the result equals `SeedItem` and the product table is the result's |
| `PopulateProducts.SeedGroupItems` | myapp/management/commands/populate_products.py:210-238 | the inner loop leaves the product table and report equal to `SeedItems` |
| `PopulateProducts.SeedOneGroup` | myapp/management/commands/populate_products.py:200-238 | one heading, on the shop: the result equals `SeedGroupRun` and the product table is the result's |
| `PopulateProducts.SeedProducts` | myapp/management/commands/populate_products.py:194-242 | the command's loop leaves the product table, the two totals and the report equal to `SeedGroups` with the corrected report |

## Left out

- Rendering, redirects, `messages`, the URL table and the admin are not modelled. Console output is not modelled either, except `populate_products`' report lines: one per entry (created, skipped or failed) and one per heading whose category is missing. These are the `Report` values in `Run.log`. Each view returns what it did (`Outcome`, a page value or an error) instead.
- `@login_required` is not modelled: every view is given a signed-in caller. An anonymous caller, whom the decorator sends to the login page, is not a case of the model.
- Registration, login, logout, profile, the buyer dashboard and order history are not modelled. They only call Django's authentication and forms.
- Form validation (`ProductForm.is_valid()`) is a boolean parameter, and the form's cleaned fields are a `ProductForm` value.
- Prices are whole centavos (`int`). `Decimal` arithmetic is not modelled. `Decimal(price)` is modelled only for digit strings; anything else is a parse failure.
- Text is ASCII. `lower()` and `split()` know only ASCII letters and ASCII whitespace.
- Randomness is modelled by parameters or left open:
  - `random.randint` is the parameter `roll`.
  - The UUID in the order number is any string of eight characters from 0-9 and A-F.
- Timestamps (`created_at`) and the ordering of orders by them are not modelled.
- Concurrency is not modelled: one request runs at a time. Database errors other than the ones named here are not modelled.
- `int()` on a malformed posted quantity (a 500 in the source) is not modelled. `Store.Shop.UpdateCart` takes the quantity as an optional integer.
- The model classes are not part of this model. Their behaviour is the five assumptions above.
- `populate_products`:
  - The vendor from `get_or_create` is a parameter. The catalogue literal is a parameter (`groups`), and each entry's colour is dropped.
  - The drawing of the image is left out: the gradient, the badge, and which three lines are drawn.
  - The product's `image` is the file name the command requests (line 68). Django's `ImageField` storage, which saves the file under `upload_to` and renames it when the name is already taken, is not modelled. So `ImageLabel.FileNamesCollide` and `LongNamesCollide` are about the requested names, not the stored files.
  - The outer `except` at lines 240-242 is not modelled: no category lookup in the model raises.
- `populate_categories`: `MultipleObjectsReturned`, raised by `get_or_create` when two categories share a name, is not modelled.
- `PopulateProducts.SeedProducts` runs the corrected report only. The report as written, which calls every creation a failure, is stated by `SeedGroupsReport` and `CreatedButReportedFailed` on the functions.
- `Catalog.ProductDetail` gives an error value when two products share a slug; in the source, `get` raises.

## Findings

| source | as written | input that shows it | evidently intended | confidence | as-written member | corrected member |
|---|---|---|---|---|---|---|
| myapp/management/commands/populate_products.py:234 | the creation message formats the price with `{price:,}`, but `price` is the catalogue's string, so formatting raises `ValueError`; the handler at lines 236-238 then reports `Failed` for a product that was already created and counted at line 233 | any new catalogue entry, e.g. `('NVIDIA RTX 4090', ..., '95999')` at line 101 | the message reports the product as created, with its price grouped by thousands | high; not executed | `PopulateProducts.CreatedButReportedFailed` (and `SeedGroupsReport` with `asWritten`) | `PopulateProducts.SeedGroupsReport` (without `asWritten`), used by `PopulateProducts.SeedProducts` |
